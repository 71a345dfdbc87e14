/**
 The record repository on values: datasets, records, observations and revisions, and what saving one
 candidate or a batch makes of them.
 */
module RecordLog {
  import opened Common
  import opened Json
  import opened StringOrder
  import opened RecordModel

  type RecordId = nat
  type ObservationId = nat

  datatype Dataset = Dataset(schema: Schema, active: bool, magnet: bool)

  datatype Decision = Created | Updated | Unchanged

  datatype Record = Record(dataset: int, key: string, values: Values)

  datatype Observation = Observation(record: RecordId, dataset: int, values: Values, decision: Decision,
                                     idem: Option<string>)

  datatype Revision = Revision(record: RecordId, observation: ObservationId, before: Values, after: Values,
                               changed: seq<string>)

  datatype Shelf = Shelf(
    datasets: map<int, Dataset>,
    records: map<RecordId, Record>,
    observations: map<ObservationId, Observation>,
    revisions: seq<Revision>,
    nextRecord: RecordId,
    nextObservation: ObservationId)

  /** A write request; `idem` is its idempotency key as the caller wrote it. */
  datatype Item = Item(dataset: int, expectedVersion: int, values: Values, idem: string)

  datatype Result = Result(record: RecordId, observation: ObservationId, decision: Decision, key: string,
                           changed: seq<string>)

  datatype Reply = Saved(result: Result) | Invalid | Conflict | Rejected

  const LONGEST_IDEM := 256
  const LARGEST_BATCH := 1000

  // ----- Reading ----------------------------------------------------------------------------

  /** Magnet keys are compared without white space and in upper case. */
  function MagnetKey(s: string): string {
    if s == [] then []
    else if IsSpace(s[|s| - 1]) then MagnetKey(s[..|s| - 1])
    else MagnetKey(s[..|s| - 1]) + [UpperChar(s[|s| - 1])]
  }

  function Canonical(d: Dataset, values: Values): Values {
    if d.magnet && "canonical_key" in values && values["canonical_key"].Str?
    then values["canonical_key" := Str(MagnetKey(values["canonical_key"].text))]
    else values
  }

  /** The dataset prepares the values as they are and in their canonical form to the same candidate, or to none. */
  predicate PreparedAlike(fmt: Formats, d: Dataset, values: Values) {
    Prepare(fmt, d.schema, Canonical(d, values)) == Prepare(fmt, d.schema, values)
  }

  predicate Answers(s: Shelf, dataset: int, idem: string, o: ObservationId) {
    o in s.observations && s.observations[o].dataset == dataset && s.observations[o].idem == Some(idem)
        && s.observations[o].record in s.records
  }

  function FindObservation(s: Shelf, dataset: int, idem: string, from: ObservationId): (found: Option<ObservationId>)
    ensures found.Some? ==> Answers(s, dataset, idem, found.value)
    ensures found.None? ==> forall o :: from <= o < s.nextObservation ==> !Answers(s, dataset, idem, o)
    decreases s.nextObservation - from
  {
    if from >= s.nextObservation then None
    else if Answers(s, dataset, idem, from) then Some(from)
    else FindObservation(s, dataset, idem, from + 1)
  }

  predicate Holds(s: Shelf, dataset: int, key: string, r: RecordId) {
    r in s.records && s.records[r].dataset == dataset && s.records[r].key == key
  }

  function FindRecord(s: Shelf, dataset: int, key: string, from: RecordId): (found: Option<RecordId>)
    ensures found.Some? ==> Holds(s, dataset, key, found.value)
    ensures found.None? ==> forall r :: from <= r < s.nextRecord ==> !Holds(s, dataset, key, r)
    decreases s.nextRecord - from
  {
    if from >= s.nextRecord then None
    else if Holds(s, dataset, key, from) then Some(from)
    else FindRecord(s, dataset, key, from + 1)
  }

  /** The request names an active dataset in the expected version. */
  predicate Addressed(s: Shelf, item: Item) {
    && item.dataset > 0 && item.dataset in s.datasets && s.datasets[item.dataset].active
    && (item.expectedVersion > 0 ==> s.datasets[item.dataset].schema.version == item.expectedVersion)
  }

  function PreparedItem(fmt: Formats, s: Shelf, item: Item): Option<Candidate>
    requires Addressed(s, item)
  {
    Prepare(fmt, s.datasets[item.dataset].schema, Canonical(s.datasets[item.dataset], item.values))
  }

  function StoredIdem(idem: string): Option<string> {
    if Trim(idem) == "" then None else Some(idem)
  }

  // ----- Saving -----------------------------------------------------------------------------

  /** The values of a record, none if there is no such record yet. */
  function ValuesBefore(s: Shelf, r: RecordId): Values {
    if r in s.records then s.records[r].values else map[]
  }

  /** What the request makes of the record with its key. */
  ghost function Outcome(s: Shelf, item: Item, c: Candidate): (Decision, Values, seq<string>)
    requires Addressed(s, item)
  {
    match FindRecord(s, item.dataset, c.key, 0)
    case None => (Created, c.values, Sorted(c.values.Keys))
    case Some(r) =>
      var before, preserve := s.records[r].values, s.datasets[item.dataset].schema.preserve;
      var changed := ChangedKeys(before, c.values, preserve);
      (if changed == {} then Unchanged else Updated, Merged(before, c.values, preserve), Sorted(changed))
  }

  /** The rows a fresh request writes: the record, its observation and, unless nothing changed, a revision. */
  ghost function Write(s: Shelf, item: Item, c: Candidate): (Shelf, Result)
    requires Addressed(s, item)
  {
    var found := FindRecord(s, item.dataset, c.key, 0);
    var r := if found.Some? then found.value else s.nextRecord;
    var before := if found.Some? then s.records[found.value].values else map[];
    var (decision, after, changed) := Outcome(s, item, c);
    var o := s.nextObservation;
    (s.(records := if decision == Unchanged then s.records else s.records[r := Record(item.dataset, c.key, after)],
        observations := s.observations[o := Observation(r, item.dataset, c.values, decision, StoredIdem(item.idem))],
        revisions := if decision == Unchanged then s.revisions
            else s.revisions + [Revision(r, o, before, after, changed)],
        nextRecord := if found.Some? then s.nextRecord else s.nextRecord + 1,
        nextObservation := o + 1),
     Result(r, o, decision, c.key, changed))
  }

  /** One candidate; a request whose key was used before answers with the earlier outcome or is a conflict. */
  ghost function SaveOne(fmt: Formats, s: Shelf, item: Item): (Shelf, Reply) {
    if !Addressed(s, item) then (s, Rejected)
    else
      var prepared := PreparedItem(fmt, s, item);
      if prepared.None? then (s, Invalid)
      else if |item.idem| > LONGEST_IDEM then (s, Rejected)
      else
        var c := prepared.value;
        var earlier := if item.idem != "" then FindObservation(s, item.dataset, item.idem, 0) else None;
        if earlier.Some? then
          var o := s.observations[earlier.value];
          if s.records[o.record].key != c.key || o.values != c.values then (s, Conflict)
          else (s, Saved(Result(o.record, earlier.value, o.decision, c.key, [])))
        else
          var written := Write(s, item, c);
          (written.0, Saved(written.1))
  }

  /** The candidates of a batch in order, up to the first that is not saved. */
  ghost function SaveEach(fmt: Formats, s: Shelf, items: seq<Item>): (Shelf, Option<seq<Result>>) {
    if items == [] then (s, Some([]))
    else
      var before := SaveEach(fmt, s, items[..|items| - 1]);
      if before.1.None? then before
      else
        var last := SaveOne(fmt, before.0, items[|items| - 1]);
        if last.1.Saved? then (last.0, Some(before.1.value + [last.1.result])) else (last.0, None)
  }

  predicate OneDataset(items: seq<Item>) {
    forall i :: 0 <= i < |items| ==> items[i].dataset == items[0].dataset
  }

  /** All candidates or none. */
  ghost function SaveBatch(fmt: Formats, s: Shelf, items: seq<Item>): (Shelf, Option<seq<Result>>) {
    if |items| == 0 || |items| > LARGEST_BATCH || !OneDataset(items) then (s, None)
    else
      var done := SaveEach(fmt, s, items);
      if done.1.Some? then done else (s, None)
  }

  // ----- What every operation keeps ------------------------------------------------------------

  /** Ids are given out in order, keys are unique, observations belong to a record of their dataset. */
  ghost predicate Sound(s: Shelf) {
    SoundRecords(s) && SoundObservations(s)
  }

  ghost predicate SoundRecords(s: Shelf) {
    && (forall r :: r in s.records ==> r < s.nextRecord)
    && (forall q, r :: q in s.records && r in s.records && SameKey(s.records[q], s.records[r]) ==> q == r)
  }

  ghost predicate SoundObservations(s: Shelf) {
    && (forall o :: o in s.observations ==> o < s.nextObservation)
    && (forall o ::
          o in s.observations ==>
            s.observations[o].record in s.records && s.records[s.observations[o].record].dataset
            == s.observations[o].dataset)
    && (forall o :: o in s.observations && s.observations[o].idem.Some? ==> Trim(s.observations[o].idem.value) != "")
    && (forall o, p ::
          o in s.observations && p in s.observations && SameIdem(s.observations[o], s.observations[p]) ==> o == p)
  }

  predicate SameKey(a: Record, b: Record) {
    a.dataset == b.dataset && a.key == b.key
  }

  /** Two observations of a dataset under the same idempotency key. */
  predicate SameIdem(a: Observation, b: Observation) {
    a.idem.Some? && a.idem == b.idem && a.dataset == b.dataset
  }

  lemma WriteSoundRecords(s: Shelf, item: Item, c: Candidate)
    requires Sound(s) && Addressed(s, item)
    ensures SoundRecords(Write(s, item, c).0)
  {
    hide Merged, ChangedKeys, Sorted, SoundObservations;
    var found := FindRecord(s, item.dataset, c.key, 0);
    assert found.None? ==> forall r :: r in s.records ==> !Holds(s, item.dataset, c.key, r);
  }

  lemma WriteSoundObservations(s: Shelf, item: Item, c: Candidate)
    requires Sound(s) && Addressed(s, item)
    requires item.idem != "" ==> FindObservation(s, item.dataset, item.idem, 0).None?
    ensures SoundObservations(Write(s, item, c).0)
  {
    hide Merged, ChangedKeys, Sorted, SoundRecords;
    WritePlaces(s, item, c);
    hide Write;
    BlankIsNotStored(item.idem);
    if StoredIdem(item.idem).Some? {
      NewIdemIsNew(s, item);
    }
    hide Trim, FindObservation, StoredIdem, SoundObservations;
    AddedObservation(s, Write(s, item, c).0, Write(s, item, c).0.observations[s.nextObservation]);
  }

  /** One more observation, of a record of its dataset and under a key that is new there. */
  lemma AddedObservation(s: Shelf, n: Shelf, o: Observation)
    requires SoundObservations(s) && n.observations == s.observations[s.nextObservation := o]
    requires n.nextObservation == s.nextObservation + 1
    requires o.record in n.records && n.records[o.record].dataset == o.dataset
    requires forall r :: r in s.records ==> r in n.records && n.records[r].dataset == s.records[r].dataset
    requires o.idem.Some? ==> Trim(o.idem.value) != ""
    requires o.idem.Some? ==> forall p :: p in s.observations && s.observations[p].dataset == o.dataset ==>
               s.observations[p].idem != o.idem
    ensures SoundObservations(n)
  {
  }

  lemma BlankIsNotStored(idem: string)
    ensures StoredIdem(idem).Some? ==> Trim(idem) != "" && idem != "" && StoredIdem(idem) == Some(idem)
  {
    assert Trim("") == "";
  }

  lemma NewIdemIsNew(s: Shelf, item: Item)
    requires Sound(s) && StoredIdem(item.idem).Some? && FindObservation(s, item.dataset, item.idem, 0).None?
    ensures forall o ::
              o in s.observations && s.observations[o].dataset == item.dataset ==>
                s.observations[o].idem != StoredIdem(item.idem)
  {
    assert forall o :: o in s.observations ==> !Answers(s, item.dataset, item.idem, o);
  }

  lemma WritePlaces(s: Shelf, item: Item, c: Candidate)
    requires Sound(s) && Addressed(s, item)
    ensures var (n, result) := Write(s, item, c);
            && n.observations
               == s.observations[s.nextObservation := Observation(result.record, item.dataset, c.values,
                                                                  result.decision, StoredIdem(item.idem))]
            && n.nextObservation == s.nextObservation + 1
            && result.record in n.records && n.records[result.record].dataset == item.dataset
            && forall r :: r in s.records ==> r in n.records && n.records[r].dataset == s.records[r].dataset
  {
    hide Merged, ChangedKeys, Sorted, SoundObservations;
  }

  lemma WriteIsSound(s: Shelf, item: Item, c: Candidate)
    requires Sound(s) && Addressed(s, item)
    requires item.idem != "" ==> FindObservation(s, item.dataset, item.idem, 0).None?
    ensures Sound(Write(s, item, c).0)
  {
    WriteSoundRecords(s, item, c);
    WriteSoundObservations(s, item, c);
    hide Write, SoundRecords, SoundObservations;
  }

  lemma WriteKeepsDatasets(s: Shelf, item: Item, c: Candidate)
    requires Addressed(s, item)
    ensures Write(s, item, c).0.datasets == s.datasets
  {
  }

  lemma SaveIsSound(fmt: Formats, s: Shelf, item: Item)
    requires Sound(s)
    ensures Sound(SaveOne(fmt, s, item).0)
    ensures SaveOne(fmt, s, item).0.datasets == s.datasets
    ensures !SaveOne(fmt, s, item).1.Saved? ==> SaveOne(fmt, s, item).0 == s
  {
    hide Prepare, Write, Sound;
    if Addressed(s, item) && PreparedItem(fmt, s, item).Some?
        && (item.idem != "" ==> FindObservation(s, item.dataset, item.idem, 0).None?) {
      WriteIsSound(s, item, PreparedItem(fmt, s, item).value);
      WriteKeepsDatasets(s, item, PreparedItem(fmt, s, item).value);
    }
  }

  lemma {:induction false} SaveEachIsSound(fmt: Formats, s: Shelf, items: seq<Item>)
    requires Sound(s)
    ensures Sound(SaveEach(fmt, s, items).0) && SaveEach(fmt, s, items).0.datasets == s.datasets
  {
    if items != [] {
      SaveEachIsSound(fmt, s, items[..|items| - 1]);
      SaveIsSound(fmt, SaveEach(fmt, s, items[..|items| - 1]).0, items[|items| - 1]);
    }
  }

  // ----- The revision log --------------------------------------------------------------------------

  function RevisionsOf(revisions: seq<Revision>, r: RecordId): seq<Revision> {
    if revisions == [] then []
    else
      var last := revisions[|revisions| - 1];
      RevisionsOf(revisions[..|revisions| - 1], r) + if last.record == r then [last] else []
  }

  /** Each revision starts where the one before ended. */
  predicate Leads(revisions: seq<Revision>, from: Values, to: Values) {
    if revisions == [] then from == to
    else
      var last := revisions[|revisions| - 1];
      last.after == to && Leads(revisions[..|revisions| - 1], from, last.before)
  }

  /** The revision names exactly the fields it changes; the first one names all fields it sets. */
  ghost predicate Exact(s: Shelf, rev: Revision) {
    && rev.observation in s.observations && s.observations[rev.observation].record == rev.record
    && (s.observations[rev.observation].decision == Created ==>
          rev.before == map[] && rev.changed == Sorted(rev.after.Keys))
    && (s.observations[rev.observation].decision == Updated ==>
          forall k: string :: k in rev.changed <==> Lookup(rev.after, k) != Lookup(rev.before, k))
    && s.observations[rev.observation].decision != Unchanged
  }

  /** The log of a record: it starts with the creation and ends with what is stored. */
  ghost predicate LogOf(s: Shelf, r: RecordId)
    requires r in s.records
  {
    var log := RevisionsOf(s.revisions, r);
    log != [] && Leads(log, map[], s.records[r].values) && CreatedFirst(s.observations, log)
  }

  /** The creation comes first and only there. */
  ghost predicate CreatedFirst(observations: map<ObservationId, Observation>, log: seq<Revision>) {
    forall i ::
          0 <= i < |log| ==>
            log[i].observation in observations && (observations[log[i].observation].decision == Created <==> i == 0)
  }

  ghost predicate Logged(s: Shelf) {
    && (forall r :: r in s.records ==> LogOf(s, r))
    && (forall i :: 0 <= i < |s.revisions| ==> Exact(s, s.revisions[i]))
    && (forall i :: 0 <= i < |s.revisions| ==> s.revisions[i].record in s.records)
    && (forall i, j :: 0 <= i < j < |s.revisions| ==> s.revisions[i].observation != s.revisions[j].observation)
    && (forall o :: o in s.observations && s.observations[o].decision != Unchanged ==> exists i ::
          0 <= i < |s.revisions| && s.revisions[i].observation == o)
  }

  lemma {:induction false} RevisionsOfSnoc(revisions: seq<Revision>, last: Revision, r: RecordId)
    ensures RevisionsOf(revisions + [last], r) == RevisionsOf(revisions, r) + if last.record == r then [last] else []
  {
    assert (revisions + [last])[..|revisions|] == revisions;
  }

  lemma {:induction false} RevisionsOfMember(revisions: seq<Revision>, r: RecordId, rev: Revision)
    ensures rev in RevisionsOf(revisions, r) <==> rev in revisions && rev.record == r
  {
    if revisions != [] {
      RevisionsOfMember(revisions[..|revisions| - 1], r, rev);
      assert revisions == revisions[..|revisions| - 1] + [revisions[|revisions| - 1]];
    }
  }

  /** The parts of a write that the log sees. */
  lemma WriteShape(s: Shelf, item: Item, c: Candidate)
    requires Sound(s) && Addressed(s, item)
    ensures var (n, result) := Write(s, item, c);
            var o := s.nextObservation;
            && result.observation == o && o !in s.observations && result.record in n.records
            && n.observations
               == s.observations[o := Observation(result.record, item.dataset, c.values, result.decision,
                                                  StoredIdem(item.idem))]
            && (result.decision == Unchanged ==> n.records == s.records && n.revisions == s.revisions)
            && (result.decision != Unchanged ==>
                  && n.records == s.records[result.record := n.records[result.record]]
                  && n.revisions == s.revisions
                       + [Revision(result.record, o, ValuesBefore(s, result.record), n.records[result.record].values,
                                   result.changed)])
            && (result.decision == Created <==> result.record !in s.records)
            && (result.decision == Created ==> result.changed == Sorted(n.records[result.record].values.Keys))
            && (result.decision == Updated ==>
                  forall k: string ::
                        k in result.changed <==>
                          Lookup(n.records[result.record].values, k) != Lookup(s.records[result.record].values, k))
  {
    var found := FindRecord(s, item.dataset, c.key, 0);
    if found.Some? {
      MergeReportsExactly(s.records[found.value].values, c.values, s.datasets[item.dataset].schema.preserve);
    }
  }

  lemma LogExtends(s: Shelf, n: Shelf, rev: Revision, r: RecordId)
    requires r in n.records && (r in s.records ==> LogOf(s, r))
    requires r !in s.records ==> RevisionsOf(s.revisions, r) == []
    requires n.revisions == s.revisions + [rev] && rev.observation in n.observations
    requires forall o :: o in s.observations ==> o in n.observations && n.observations[o] == s.observations[o]
    requires r != rev.record ==> r in s.records && n.records[r] == s.records[r]
    requires r == rev.record ==>
               rev.before == ValuesBefore(s, r) && rev.after == n.records[r].values
    requires r == rev.record ==> (n.observations[rev.observation].decision == Created <==> r !in s.records)
    ensures LogOf(n, r)
  {
    hide RevisionsOf, Leads, CreatedFirst;
    RevisionsOfSnoc(s.revisions, rev, r);
    var earlier := RevisionsOf(s.revisions, r);
    if r == rev.record {
      StartsEmpty(earlier);
      LeadsSnoc(earlier, rev, map[]);
      CreatedFirstSnoc(s, n, earlier, rev);
    } else {
      assert RevisionsOf(n.revisions, r) == earlier;
      CreatedFirstKept(s, n, earlier);
    }
  }

  lemma StartsEmpty(log: seq<Revision>)
    ensures log == [] ==> Leads(log, map[], map[])
  {
  }

  lemma LeadsSnoc(log: seq<Revision>, rev: Revision, from: Values)
    requires Leads(log, from, rev.before)
    ensures Leads(log + [rev], from, rev.after)
  {
    assert (log + [rev])[..|log|] == log;
  }

  lemma CreatedFirstKept(s: Shelf, n: Shelf, log: seq<Revision>)
    requires CreatedFirst(s.observations, log)
    requires forall o :: o in s.observations ==> o in n.observations && n.observations[o] == s.observations[o]
    ensures CreatedFirst(n.observations, log)
  {
  }

  lemma CreatedFirstSnoc(s: Shelf, n: Shelf, log: seq<Revision>, rev: Revision)
    requires log == [] || CreatedFirst(s.observations, log)
    requires forall o :: o in s.observations ==> o in n.observations && n.observations[o] == s.observations[o]
    requires rev.observation in n.observations && (n.observations[rev.observation].decision == Created <==> log == [])
    ensures CreatedFirst(n.observations, log + [rev])
  {
  }

  lemma OnlyRecordsAreLogged(s: Shelf, r: RecordId)
    requires Logged(s) && RevisionsOf(s.revisions, r) != []
    ensures r in s.records
  {
    var rev := RevisionsOf(s.revisions, r)[0];
    RevisionsOfMember(s.revisions, r, rev);
    var i :| 0 <= i < |s.revisions| && s.revisions[i] == rev;
    assert s.revisions[i].record in s.records;
  }

  lemma WriteLogs(s: Shelf, item: Item, c: Candidate)
    requires Sound(s) && Logged(s) && Addressed(s, item)
    ensures Logged(Write(s, item, c).0)
  {
    hide Write;
    WriteShape(s, item, c);
    var (n, result) := Write(s, item, c);
    if result.decision == Unchanged {
      ObservationLogs(s, n, result.observation);
    } else {
      RevisionLogs(s, n, result);
    }
  }

  lemma ObservationLogs(s: Shelf, n: Shelf, o: ObservationId)
    requires Logged(s) && n.records == s.records && n.revisions == s.revisions && o !in s.observations
    requires o in n.observations
    requires n.observations == s.observations[o := n.observations[o]] && n.observations[o].decision == Unchanged
    ensures Logged(n)
  {
    forall r | r in n.records ensures LogOf(n, r) {
      assert LogOf(s, r);
    }
    forall i | 0 <= i < |n.revisions| ensures Exact(n, n.revisions[i]) {
      assert Exact(s, s.revisions[i]);
    }
  }

  lemma LogKept(s: Shelf, r: RecordId)
    requires Logged(s)
    ensures if r in s.records then LogOf(s, r) else RevisionsOf(s.revisions, r) == []
  {
    if r !in s.records && RevisionsOf(s.revisions, r) != [] {
      OnlyRecordsAreLogged(s, r);
    }
  }

  lemma RevisionKept(s: Shelf, n: Shelf, i: nat)
    requires Logged(s) && i < |s.revisions| && i < |n.revisions| && n.revisions[i] == s.revisions[i]
    requires forall o :: o in s.observations ==> o in n.observations && n.observations[o] == s.observations[o]
    requires forall r :: r in s.records ==> r in n.records
    ensures Exact(n, n.revisions[i]) && n.revisions[i].record in n.records
  {
    assert Exact(s, s.revisions[i]);
  }

  lemma RevisionLogs(s: Shelf, n: Shelf, result: Result)
    requires Logged(s) && result.record in n.records && result.observation !in s.observations
    requires result.observation in n.observations
    requires n.observations == s.observations[result.observation := n.observations[result.observation]]
    requires n.observations[result.observation].record == result.record
    requires n.observations[result.observation].decision == result.decision
    requires result.decision != Unchanged && n.records == s.records[result.record := n.records[result.record]]
    requires n.revisions == s.revisions
               + [Revision(result.record, result.observation, ValuesBefore(s, result.record),
                           n.records[result.record].values, result.changed)]
    requires result.decision == Created <==> result.record !in s.records
    requires result.decision == Created ==> result.changed == Sorted(n.records[result.record].values.Keys)
    requires result.decision == Updated ==>
               forall k: string ::
                     k in result.changed <==>
                       Lookup(n.records[result.record].values, k) != Lookup(s.records[result.record].values, k)
    ensures Logged(n)
  {
    hide LogOf, Exact, Logged;
    var rev := n.revisions[|s.revisions|];
    forall r | r in n.records ensures LogOf(n, r) {
      LogKept(s, r);
      LogExtends(s, n, rev, r);
    }
    LastIsExact(s, n, rev);
    forall i | 0 <= i < |n.revisions| ensures Exact(n, n.revisions[i]) && n.revisions[i].record in n.records {
      if i < |s.revisions| {
        RevisionKept(s, n, i);
      }
    }
    OneRevisionEach(s, n, rev);
    LoggedFromParts(n);
  }

  lemma LoggedFromParts(s: Shelf)
    requires forall r :: r in s.records ==> LogOf(s, r)
    requires forall i :: 0 <= i < |s.revisions| ==> Exact(s, s.revisions[i]) && s.revisions[i].record in s.records
    requires forall i, j :: 0 <= i < j < |s.revisions| ==> s.revisions[i].observation != s.revisions[j].observation
    requires forall o :: o in s.observations && s.observations[o].decision != Unchanged ==> exists i ::
               0 <= i < |s.revisions| && s.revisions[i].observation == o
    ensures Logged(s)
  {
    hide LogOf, Exact;
  }

  lemma LastIsExact(s: Shelf, n: Shelf, rev: Revision)
    requires rev.observation in n.observations && n.observations[rev.observation].record == rev.record
    requires n.observations[rev.observation].decision != Unchanged
    requires n.observations[rev.observation].decision == Created ==>
               rev.before == map[] && rev.changed == Sorted(rev.after.Keys)
    requires n.observations[rev.observation].decision == Updated ==> forall k: string ::
               k in rev.changed <==> Lookup(rev.after, k) != Lookup(rev.before, k)
    ensures Exact(n, rev)
  {
  }

  lemma OneRevisionEach(s: Shelf, n: Shelf, rev: Revision)
    requires Logged(s) && n.revisions == s.revisions + [rev] && rev.observation !in s.observations
    requires rev.observation in n.observations
    requires n.observations == s.observations[rev.observation := n.observations[rev.observation]]
    ensures forall i, j :: 0 <= i < j < |n.revisions| ==> n.revisions[i].observation != n.revisions[j].observation
    ensures forall o :: o in n.observations && n.observations[o].decision != Unchanged ==> exists i ::
              0 <= i < |n.revisions| && n.revisions[i].observation == o
  {
    assert forall i :: 0 <= i < |s.revisions| ==> n.revisions[i] == s.revisions[i] && Exact(s, s.revisions[i]);
    forall o | o in n.observations && n.observations[o].decision != Unchanged
      ensures exists i :: 0 <= i < |n.revisions| && n.revisions[i].observation == o
    {
      if o == rev.observation {
        assert n.revisions[|s.revisions|].observation == o;
      } else {
        var i :| 0 <= i < |s.revisions| && s.revisions[i].observation == o;
        assert n.revisions[i].observation == o;
      }
    }
  }

  lemma SaveLogs(fmt: Formats, s: Shelf, item: Item)
    requires Sound(s) && Logged(s)
    ensures Logged(SaveOne(fmt, s, item).0)
  {
    hide Write, Logged;
    if Addressed(s, item) && PreparedItem(fmt, s, item).Some? {
      WriteLogs(s, item, PreparedItem(fmt, s, item).value);
    }
  }

  lemma {:induction false} SaveEachLogs(fmt: Formats, s: Shelf, items: seq<Item>)
    requires Sound(s) && Logged(s)
    ensures Logged(SaveEach(fmt, s, items).0)
  {
    hide Logged, SaveOne;
    if items != [] {
      SaveEachLogs(fmt, s, items[..|items| - 1]);
      SaveEachIsSound(fmt, s, items[..|items| - 1]);
      SaveLogs(fmt, SaveEach(fmt, s, items[..|items| - 1]).0, items[|items| - 1]);
    }
  }

  // ----- Histories -----------------------------------------------------------------------------------

  /** What can happen to the repository: single writes, batches, and edits of a dataset. */
  datatype Op = SaveOp(item: Item) | BatchOp(items: seq<Item>) | EditOp(dataset: int, edited: Dataset)

  ghost function Apply(fmt: Formats, s: Shelf, op: Op): Shelf {
    match op
    case SaveOp(item) => SaveOne(fmt, s, item).0
    case BatchOp(items) => SaveBatch(fmt, s, items).0
    case EditOp(id, edited) => s.(datasets := s.datasets[id := edited])
  }

  ghost function History(fmt: Formats, s: Shelf, ops: seq<Op>): Shelf {
    if ops == [] then s else Apply(fmt, History(fmt, s, ops[..|ops| - 1]), ops[|ops| - 1])
  }

  const EMPTY_SHELF := Shelf(map[], map[], map[], [], 1, 1)

  lemma ApplyKeeps(fmt: Formats, s: Shelf, op: Op)
    requires Sound(s) && Logged(s)
    ensures Sound(Apply(fmt, s, op)) && Logged(Apply(fmt, s, op))
  {
    match op
    case SaveOp(item) => SaveIsSound(fmt, s, item); SaveLogs(fmt, s, item);
    case BatchOp(items) => SaveEachIsSound(fmt, s, items); SaveEachLogs(fmt, s, items);
    case EditOp(id, edited) => EditKeeps(s, s.(datasets := s.datasets[id := edited]));
  }

  lemma EditKeeps(s: Shelf, n: Shelf)
    requires Sound(s) && Logged(s) && n == s.(datasets := n.datasets)
    ensures Sound(n) && Logged(n)
  {
    forall r | r in n.records ensures LogOf(n, r) {
      assert LogOf(s, r);
    }
    forall i | 0 <= i < |n.revisions| ensures Exact(n, n.revisions[i]) {
      assert Exact(s, s.revisions[i]);
    }
  }

  lemma {:induction false} HistoryKeeps(fmt: Formats, s: Shelf, ops: seq<Op>)
    requires Sound(s) && Logged(s)
    ensures Sound(History(fmt, s, ops)) && Logged(History(fmt, s, ops))
  {
    hide Sound, Logged, Apply;
    if ops != [] {
      HistoryKeeps(fmt, s, ops[..|ops| - 1]);
      ApplyKeeps(fmt, History(fmt, s, ops[..|ops| - 1]), ops[|ops| - 1]);
    }
  }

  /**
   In every history the revisions of a record lead from the empty object to what is stored, the first one
   being its only creation; there is exactly one revision for each observation that changed something, naming
   the fields it changed, and none for the others.
   */
  lemma RevisionsRebuildRecords(fmt: Formats, ops: seq<Op>)
    ensures var s := History(fmt, EMPTY_SHELF, ops);
            && (forall r :: r in s.records ==> LogOf(s, r))
            && (forall i :: 0 <= i < |s.revisions| ==> Exact(s, s.revisions[i]))
            && (forall i, j :: 0 <= i < j < |s.revisions| ==> s.revisions[i].observation != s.revisions[j].observation)
            && (forall o :: o in s.observations ==>
                  (s.observations[o].decision != Unchanged <==> exists i ::
                     0 <= i < |s.revisions| && s.revisions[i].observation == o))
  {
    HistoryKeeps(fmt, EMPTY_SHELF, ops);
    var s := History(fmt, EMPTY_SHELF, ops);
    assert forall i :: 0 <= i < |s.revisions| ==> Exact(s, s.revisions[i]);
  }

  // ----- Exactly once ------------------------------------------------------------------------------------

  /** The request has been carried out: its key names an observation of the same candidate. */
  ghost predicate CarriedOut(fmt: Formats, s: Shelf, item: Item, result: Result) {
    && Addressed(s, item) && |item.idem| <= LONGEST_IDEM && Trim(item.idem) != ""
    && PreparedItem(fmt, s, item).Some?
    && var c := PreparedItem(fmt, s, item).value;
    && Answers(s, item.dataset, item.idem, result.observation)
    && s.observations[result.observation]
       == Observation(result.record, item.dataset, c.values, result.decision, Some(item.idem))
    && s.records[result.record].key == c.key && result.key == c.key
  }

  /** Equal up to the list of changed fields, which a replay does not report. */
  predicate SameOutcome(a: Result, b: Result) {
    a == b.(changed := a.changed)
  }

  lemma SaveCarriesOut(fmt: Formats, s: Shelf, item: Item)
    requires Sound(s) && SaveOne(fmt, s, item).1.Saved? && Trim(item.idem) != ""
    ensures CarriedOut(fmt, SaveOne(fmt, s, item).0, item, SaveOne(fmt, s, item).1.result)
  {
    hide Merged, ChangedKeys, Sorted, Prepare;
    var found := FindRecord(s, item.dataset, PreparedItem(fmt, s, item).value.key, 0);
    assert Trim("") == "";
  }

  /** Rows that other requests never touch: observations, and the key and dataset of a record. */
  ghost predicate Preserves(s: Shelf, n: Shelf) {
    && (forall o :: o in s.observations ==> o in n.observations && n.observations[o] == s.observations[o])
    && (forall r ::
          r in s.records ==>
            r in n.records && n.records[r].key == s.records[r].key && n.records[r].dataset == s.records[r].dataset)
  }

  lemma WritePreserves(s: Shelf, item: Item, c: Candidate)
    requires Sound(s) && Addressed(s, item)
    ensures Preserves(s, Write(s, item, c).0)
  {
    hide Merged, ChangedKeys, Sorted;
  }

  lemma SavePreserves(fmt: Formats, s: Shelf, item: Item)
    requires Sound(s)
    ensures Preserves(s, SaveOne(fmt, s, item).0)
  {
    hide Write, Prepare, Sound;
    if Addressed(s, item) && PreparedItem(fmt, s, item).Some? {
      WritePreserves(s, item, PreparedItem(fmt, s, item).value);
    }
  }

  lemma {:induction false} SaveEachPreserves(fmt: Formats, s: Shelf, items: seq<Item>)
    requires Sound(s)
    ensures Preserves(s, SaveEach(fmt, s, items).0)
  {
    hide SaveOne;
    if items != [] {
      SaveEachPreserves(fmt, s, items[..|items| - 1]);
      SaveEachIsSound(fmt, s, items[..|items| - 1]);
      SavePreserves(fmt, SaveEach(fmt, s, items[..|items| - 1]).0, items[|items| - 1]);
    }
  }

  lemma CarriedOutStays(fmt: Formats, s: Shelf, n: Shelf, item: Item, result: Result)
    requires CarriedOut(fmt, s, item, result) && Preserves(s, n)
    requires item.dataset in n.datasets && n.datasets[item.dataset] == s.datasets[item.dataset]
    ensures CarriedOut(fmt, n, item, result)
  {
  }

  /** A request that has been carried out is answered from its observation; nothing is written. */
  lemma CarriedOutReplays(fmt: Formats, s: Shelf, item: Item, result: Result)
    requires Sound(s) && CarriedOut(fmt, s, item, result)
    ensures SaveOne(fmt, s, item) == (s, Saved(result.(changed := [])))
  {
    hide Prepare;
    assert Trim("") == "";
    var found := FindObservation(s, item.dataset, item.idem, 0);
    assert Answers(s, item.dataset, item.idem, result.observation);
  }

  predicate Keyed(items: seq<Item>) {
    forall i :: 0 <= i < |items| ==> Trim(items[i].idem) != ""
  }

  ghost predicate AllCarriedOut(fmt: Formats, s: Shelf, items: seq<Item>, results: seq<Result>) {
    |results| == |items| && forall i :: 0 <= i < |items| ==> CarriedOut(fmt, s, items[i], results[i])
  }

  lemma {:induction false} BatchIsCarriedOut(fmt: Formats, s: Shelf, items: seq<Item>)
    requires Sound(s) && Keyed(items) && SaveEach(fmt, s, items).1.Some?
    ensures AllCarriedOut(fmt, SaveEach(fmt, s, items).0, items, SaveEach(fmt, s, items).1.value)
  {
    hide SaveOne, CarriedOut;
    if items != [] {
      var front, last := items[..|items| - 1], items[|items| - 1];
      BatchIsCarriedOut(fmt, s, front);
      SaveEachIsSound(fmt, s, front);
      var before, results := SaveEach(fmt, s, front).0, SaveEach(fmt, s, front).1.value;
      SaveCarriesOut(fmt, before, last);
      SavePreserves(fmt, before, last);
      SaveIsSound(fmt, before, last);
      forall i | 0 <= i < |front| ensures CarriedOut(fmt, SaveOne(fmt, before, last).0, items[i], results[i]) {
        assert items[i] == front[i];
        CarriedOutIsAddressed(fmt, before, items[i], results[i]);
        CarriedOutStays(fmt, before, SaveOne(fmt, before, last).0, items[i], results[i]);
      }
    }
  }

  lemma CarriedOutIsAddressed(fmt: Formats, s: Shelf, item: Item, result: Result)
    requires CarriedOut(fmt, s, item, result)
    ensures item.dataset in s.datasets
  {
  }

  lemma {:induction false} CarriedOutBatchReplays(fmt: Formats, s: Shelf, items: seq<Item>, results: seq<Result>)
    requires Sound(s) && AllCarriedOut(fmt, s, items, results)
    ensures SaveEach(fmt, s, items).0 == s && SaveEach(fmt, s, items).1.Some?
    ensures |SaveEach(fmt, s, items).1.value| == |results|
    ensures forall i :: 0 <= i < |results| ==> SameOutcome(SaveEach(fmt, s, items).1.value[i], results[i])
  {
    hide SaveOne, CarriedOut;
    if items != [] {
      var front := items[..|items| - 1];
      assert AllCarriedOut(fmt, s, front, results[..|results| - 1]);
      CarriedOutBatchReplays(fmt, s, front, results[..|results| - 1]);
      CarriedOutReplays(fmt, s, items[|items| - 1], results[|results| - 1]);
    }
  }

  /** Later operations other than an edit of the dataset leave a carried-out request carried out. */
  lemma {:induction false} CarriedOutForGood(fmt: Formats, s: Shelf, ops: seq<Op>, items: seq<Item>,
                                             results: seq<Result>)
    requires Sound(s) && Logged(s) && AllCarriedOut(fmt, s, items, results)
    requires forall i, k :: 0 <= i < |ops| && 0 <= k < |items| && ops[i].EditOp? ==> ops[i].dataset != items[k].dataset
    ensures AllCarriedOut(fmt, History(fmt, s, ops), items, results)
  {
    hide CarriedOut, SaveOne, SaveBatch, Logged;
    if ops != [] {
      var front, op := ops[..|ops| - 1], ops[|ops| - 1];
      CarriedOutForGood(fmt, s, front, items, results);
      HistoryKeeps(fmt, s, front);
      var before := History(fmt, s, front);
      OpPreserves(fmt, before, op);
      forall i | 0 <= i < |items| ensures CarriedOut(fmt, Apply(fmt, before, op), items[i], results[i]) {
        CarriedOutIsAddressed(fmt, before, items[i], results[i]);
        CarriedOutStays(fmt, before, Apply(fmt, before, op), items[i], results[i]);
      }
    }
  }

  lemma OpPreserves(fmt: Formats, s: Shelf, op: Op)
    requires Sound(s)
    ensures Preserves(s, Apply(fmt, s, op))
    ensures var n := Apply(fmt, s, op);
            forall d ::
                  d in s.datasets && (op.EditOp? ==> op.dataset != d) ==>
                    d in n.datasets && n.datasets[d] == s.datasets[d]
  {
    hide SaveOne;
    match op
    case SaveOp(item) => SavePreserves(fmt, s, item); SaveIsSound(fmt, s, item);
    case BatchOp(items) => SaveEachPreserves(fmt, s, items); SaveEachIsSound(fmt, s, items);
    case EditOp(_, _) =>
  }

  lemma {:induction false} DatasetStays(fmt: Formats, s: Shelf, d: int, ops: seq<Op>)
    requires Sound(s) && Logged(s) && d in s.datasets
    requires forall i :: 0 <= i < |ops| && ops[i].EditOp? ==> ops[i].dataset != d
    ensures var n := History(fmt, s, ops); d in n.datasets && n.datasets[d] == s.datasets[d]
  {
    hide Sound, Logged, Apply;
    if ops != [] {
      DatasetStays(fmt, s, d, ops[..|ops| - 1]);
      HistoryKeeps(fmt, s, ops[..|ops| - 1]);
      OpPreserves(fmt, History(fmt, s, ops[..|ops| - 1]), ops[|ops| - 1]);
    }
  }

  /**
   Exactly once: a batch of keyed requests that was committed may be sent again at any later time, after any
   other writes, as long as its dataset was not edited.  It answers with the same records, observations,
   decisions and keys and writes nothing.
   */
  lemma BatchHappensOnce(fmt: Formats, s: Shelf, items: seq<Item>, ops: seq<Op>)
    requires Sound(s) && Logged(s) && Keyed(items) && SaveBatch(fmt, s, items).1.Some?
    requires forall i, k :: 0 <= i < |ops| && 0 <= k < |items| && ops[i].EditOp? ==> ops[i].dataset != items[k].dataset
    ensures var (once, results) := SaveBatch(fmt, s, items);
            var later := History(fmt, once, ops);
            var (again, replies) := SaveBatch(fmt, later, items);
            && again == later && replies.Some? && |replies.value| == |results.value|
            && forall i :: 0 <= i < |replies.value| ==> SameOutcome(replies.value[i], results.value[i])
  {
    hide SaveEach, CarriedOut, Sound, Logged, SameOutcome;
    var results := SaveBatch(fmt, s, items).1.value;
    var once := SaveBatch(fmt, s, items).0;
    SaveEachIsSound(fmt, s, items);
    SaveEachLogs(fmt, s, items);
    BatchIsCarriedOut(fmt, s, items);
    CarriedOutForGood(fmt, once, ops, items, results);
    HistoryKeeps(fmt, once, ops);
    CarriedOutBatchReplays(fmt, History(fmt, once, ops), items, results);
  }

  /** A single request sent twice writes nothing the second time exactly if its key is more than white space. */
  lemma ReplayIsIdleIffKeyed(fmt: Formats, s: Shelf, item: Item)
    requires Sound(s) && SaveOne(fmt, s, item).1.Saved?
    ensures var once := SaveOne(fmt, s, item).0;
            SaveOne(fmt, once, item).0 == once <==> Trim(item.idem) != ""
  {
    hide Prepare, Merged, ChangedKeys, Sorted;
    SaveIsSound(fmt, s, item);
    var once := SaveOne(fmt, s, item).0;
    if Trim(item.idem) != "" {
      SaveCarriesOut(fmt, s, item);
      CarriedOutReplays(fmt, once, item, SaveOne(fmt, s, item).1.result);
    } else {
      BlankKeyWrites(fmt, s, item);
      BlankKeyWrites(fmt, once, item);
      SavesAgain(fmt, s, item);
    }
  }

  lemma SavesAgain(fmt: Formats, s: Shelf, item: Item)
    requires SaveOne(fmt, s, item).1.Saved? && SaveOne(fmt, s, item).0.datasets == s.datasets
    requires Trim(item.idem) == "" && Sound(SaveOne(fmt, s, item).0)
    ensures Addressed(SaveOne(fmt, s, item).0, item) && PreparedItem(fmt, SaveOne(fmt, s, item).0, item).Some?
    ensures |item.idem| <= LONGEST_IDEM
  {
    hide Prepare, Merged, ChangedKeys, Sorted;
  }

  /** A blank key is not stored, so it never finds an earlier request. */
  lemma BlankKeyWrites(fmt: Formats, s: Shelf, item: Item)
    requires Sound(s) && Trim(item.idem) == ""
    ensures Addressed(s, item) && PreparedItem(fmt, s, item).Some? && |item.idem| <= LONGEST_IDEM ==>
              SaveOne(fmt, s, item).0.nextObservation == s.nextObservation + 1
  {
    hide Prepare, Merged, ChangedKeys, Sorted;
    assert forall o :: !Answers(s, item.dataset, item.idem, o);
  }

  /** A key that was used before for another candidate is a conflict, which changes nothing. */
  lemma ConflictIffKeyReused(fmt: Formats, s: Shelf, item: Item)
    requires Sound(s) && Addressed(s, item) && PreparedItem(fmt, s, item).Some? && |item.idem| <= LONGEST_IDEM
    ensures var c := PreparedItem(fmt, s, item).value;
            SaveOne(fmt, s, item).1.Conflict? <==>
              exists o: ObservationId :: Answers(s, item.dataset, item.idem, o) &&
                (s.records[s.observations[o].record].key != c.key || s.observations[o].values != c.values)
    ensures SaveOne(fmt, s, item).1.Conflict? ==> SaveOne(fmt, s, item).0 == s
  {
    hide Prepare, Merged, ChangedKeys, Sorted;
    assert Trim("") == "";
    var found := FindObservation(s, item.dataset, item.idem, 0);
    assert forall o: ObservationId :: Answers(s, item.dataset, item.idem, o) ==> found == Some(o);
  }
}
