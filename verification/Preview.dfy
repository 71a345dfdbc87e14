/**
 The dry run of a batch.  It reads the repository and plays the batch on a copy of the records it meets; for
 datasets that are not magnets it foretells exactly what saving the batch would decide.
 */
module Preview {
  import opened Common
  import opened Json
  import opened StringOrder
  import opened RecordModel
  import opened RecordLog
  import RecordStore

  datatype Forecast = Planned(key: string, values: Values, decision: Decision, changed: seq<string>) | Unusable

  /** The stored values under a key of a dataset. */
  function Stored(s: Shelf, dataset: int, key: string): Option<Values> {
    match FindRecord(s, dataset, key, 0)
    case None => None
    case Some(r) => Some(s.records[r].values)
  }

  /** What the dry run believes to be stored: its own copy, or the repository for keys it has not met. */
  function Believed(s: Shelf, dataset: int, state: map<string, Values>, key: string): Option<Values> {
    if key in state then Some(state[key]) else Stored(s, dataset, key)
  }

  ghost function Foretell(current: Option<Values>, c: Candidate, preserve: bool): (Forecast, Values) {
    match current
    case None => (Planned(c.key, c.values, Created, Sorted(c.values.Keys)), c.values)
    case Some(before) =>
      var changed := ChangedKeys(before, c.values, preserve);
      var decision := if changed == {} then Unchanged else Updated;
      (Planned(c.key, c.values, decision, Sorted(changed)), Merged(before, c.values, preserve))
  }

  ghost function ForetellEach(fmt: Formats, s: Shelf, dataset: int, schema: Schema,
                              candidates: seq<Values>): (map<string, Values>, seq<Forecast>) {
    if candidates == [] then (map[], [])
    else
      var (state, forecasts) := ForetellEach(fmt, s, dataset, schema, candidates[..|candidates| - 1]);
      var prepared := Prepare(fmt, schema, candidates[|candidates| - 1]);
      match prepared
      case None => (state, forecasts + [Unusable])
      case Some(c) =>
        var (forecast, values) := Foretell(Believed(s, dataset, state, c.key), c, schema.preserve);
        (state[c.key := values], forecasts + [forecast])
  }

  /** The dry run over the store; it has nothing to modify. */
  method PreviewBatch(fmt: Formats, store: RecordStore.Store, dataset: int, schema: Schema, candidates: seq<Values>)
    returns (forecasts: Option<seq<Forecast>>)
    ensures forecasts == if 1 <= |candidates| <= LARGEST_BATCH
                         then Some(ForetellEach(fmt, store.View(), dataset, schema, candidates).1) else None
  {
    if |candidates| == 0 || |candidates| > LARGEST_BATCH {
      return None;
    }
    hide ForetellEach, Foretell, Stored, Prepare, Believed, SameBelief;
    var state: map<string, Values> := map[];
    var seen: set<string> := {};
    var out: seq<Forecast> := [];
    ForetellStarts(fmt, store.View(), dataset, schema, candidates);
    for i := 0 to |candidates|
      invariant seen == state.Keys
      invariant ForetellEach(fmt, store.View(), dataset, schema, candidates[..i]).1 == out
      invariant SameBelief(store.View(), dataset, state,
                           ForetellEach(fmt, store.View(), dataset, schema, candidates[..i]).0)
    {
      ForetellStep(fmt, store.View(), dataset, schema, candidates, i);
      var forecast, next := PreviewNext(fmt, store, dataset, schema, candidates[i], state, seen);
      ghost var c := Prepare(fmt, schema, candidates[i]);
      if c.Some? {
        SameAfter(store.View(), dataset, state, ForetellEach(fmt, store.View(), dataset, schema, candidates[..i]).0,
                  c.value.key, next[c.value.key]);
      }
      state, seen, out := next, next.Keys, out + [forecast];
    }
    forecasts := Some(out);
  }

  /** One candidate against the copy; a key that was not met before is read from the repository. */
  method PreviewNext(fmt: Formats, store: RecordStore.Store, dataset: int, schema: Schema, values: Values,
                     state: map<string, Values>, seen: set<string>)
    returns (forecast: Forecast, next: map<string, Values>)
    requires seen == state.Keys
    ensures match Prepare(fmt, schema, values)
            case None => forecast == Unusable && next == state
            case Some(c) =>
              var (f, v) := Foretell(Believed(store.View(), dataset, state, c.key), c, schema.preserve);
              forecast == f && next == state[c.key := v]
  {
    hide Prepare, Foretell;
    next := state;
    var prepared, _ := PrepareCandidate(fmt, schema, values);
    if prepared.None? {
      return Unusable, next;
    }
    var key := prepared.value.key;
    if key !in seen {
      var row := store.LookUpRecord(dataset, key);
      if row.Some? {
        next := next[key := store.records[row.value].values];
      }
    }
    var f, v := PreviewOne(if key in next then Some(next[key]) else None, prepared.value, schema.preserve);
    forecast, next := f, next[key := v];
  }

  ghost predicate SameBelief(s: Shelf, dataset: int, a: map<string, Values>, b: map<string, Values>) {
    forall k: string :: Believed(s, dataset, a, k) == Believed(s, dataset, b, k)
  }

  lemma SameAfter(s: Shelf, dataset: int, a: map<string, Values>, b: map<string, Values>, k: string, v: Values)
    requires SameBelief(s, dataset, a, b)
    ensures Believed(s, dataset, a, k) == Believed(s, dataset, b, k) && SameBelief(s, dataset, a[k := v], b[k := v])
  {
    hide Stored;
    var n, m := a[k := v], b[k := v];
    forall j: string ensures Believed(s, dataset, n, j) == Believed(s, dataset, m, j) {
      assert Believed(s, dataset, a, j) == Believed(s, dataset, b, j);
    }
  }

  lemma ForetellStarts(fmt: Formats, s: Shelf, dataset: int, schema: Schema, candidates: seq<Values>)
    ensures ForetellEach(fmt, s, dataset, schema, candidates[..0]) == (map[], [])
    ensures candidates[..|candidates|] == candidates
    ensures SameBelief(s, dataset, map[], map[])
  {
  }

  lemma ForetellStep(fmt: Formats, s: Shelf, dataset: int, schema: Schema, candidates: seq<Values>, i: nat)
    requires i < |candidates|
    ensures var (state, forecasts) := ForetellEach(fmt, s, dataset, schema, candidates[..i]);
            var n := ForetellEach(fmt, s, dataset, schema, candidates[..i + 1]);
            match Prepare(fmt, schema, candidates[i])
            case None => n == (state, forecasts + [Unusable])
            case Some(c) =>
              var (forecast, values) := Foretell(Believed(s, dataset, state, c.key), c, schema.preserve);
              n == (state[c.key := values], forecasts + [forecast])
  {
    hide Prepare, Foretell, Believed;
    assert candidates[..i + 1][..i] == candidates[..i];
  }

  method PreviewOne(current: Option<Values>, c: Candidate, preserve: bool) returns (forecast: Forecast, values: Values)
    ensures (forecast, values) == Foretell(current, c, preserve)
  {
    if current.Some? {
      var merged, changed := Merge(current.value, c.values, preserve);
      RecordStore.NothingListedIffNothing(ChangedKeys(current.value, c.values, preserve));
      forecast := Planned(c.key, c.values, if |changed| == 0 then Unchanged else Updated, changed);
      values := merged;
    } else {
      var changed := SortKeys(c.values.Keys);
      forecast, values := Planned(c.key, c.values, Created, changed), c.values;
    }
  }

  // ----- The forecast comes true ---------------------------------------------------------------------

  lemma FindsTheHolder(s: Shelf, dataset: int, key: string)
    requires Sound(s)
    ensures forall r: RecordId :: Holds(s, dataset, key, r) ==> FindRecord(s, dataset, key, 0) == Some(r)
    ensures (forall r: RecordId :: !Holds(s, dataset, key, r)) ==> FindRecord(s, dataset, key, 0) == None
  {
    forall r: RecordId | Holds(s, dataset, key, r) ensures FindRecord(s, dataset, key, 0) == Some(r) {
      assert SameKey(s.records[r], s.records[FindRecord(s, dataset, key, 0).value]);
    }
  }

  /** A write changes what is stored under its own key only. */
  lemma WriteStores(s: Shelf, item: Item, c: Candidate, key: string)
    requires Sound(s) && Addressed(s, item)
    requires item.idem != "" ==> FindObservation(s, item.dataset, item.idem, 0).None?
    ensures Stored(Write(s, item, c).0, item.dataset, key) ==
              if key == c.key
                  then Some(Foretell(Stored(s, item.dataset, key), c, s.datasets[item.dataset].schema.preserve).1)
              else Stored(s, item.dataset, key)
  {
    var n := Write(s, item, c).0;
    WriteIsSound(s, item, c);
    FindsTheHolder(s, item.dataset, key);
    FindsTheHolder(n, item.dataset, key);
    WriteRecords(s, item, c);
    hide Write, Sound;
    var found := FindRecord(s, item.dataset, c.key, 0);
    if key == c.key {
      assert Holds(n, item.dataset, key, if found.Some? then found.value else s.nextRecord);
    } else if Stored(s, item.dataset, key).Some? {
      assert Holds(n, item.dataset, key, FindRecord(s, item.dataset, key, 0).value);
    } else {
      assert forall r: RecordId :: Holds(n, item.dataset, key, r) ==> Holds(s, item.dataset, key, r);
    }
  }

  lemma WriteRecords(s: Shelf, item: Item, c: Candidate)
    requires Sound(s) && Addressed(s, item)
    ensures var (n, result) := Write(s, item, c);
            var r := if FindRecord(s, item.dataset, c.key, 0).Some? then FindRecord(s, item.dataset, c.key, 0).value
                else s.nextRecord;
            var preserve := s.datasets[item.dataset].schema.preserve;
            var after := Foretell(Stored(s, item.dataset, c.key), c, preserve).1;
            n.records == s.records[r := Record(item.dataset, c.key, after)]
  {
    var found := FindRecord(s, item.dataset, c.key, 0);
    if found.Some? {
      MergeReportsExactly(s.records[found.value].values, c.values, s.datasets[item.dataset].schema.preserve);
    }
  }

  lemma WriteDecides(s: Shelf, item: Item, c: Candidate)
    requires Addressed(s, item)
    ensures var result := Write(s, item, c).1;
            Foretell(Stored(s, item.dataset, c.key), c, s.datasets[item.dataset].schema.preserve).0
                == Planned(result.key, c.values, result.decision, result.changed)
  {
  }

  /** The requests of a batch: one active dataset in a version they accept, and keys nobody used before. */
  ghost predicate Fresh(s: Shelf, dataset: int, items: seq<Item>, candidates: seq<Values>) {
    && |items| == |candidates| && dataset > 0 && dataset in s.datasets && s.datasets[dataset].active
    && (forall i :: 0 <= i < |items| ==>
          && items[i].dataset == dataset && items[i].values == candidates[i] && |items[i].idem| <= LONGEST_IDEM
          && (items[i].expectedVersion > 0 ==> items[i].expectedVersion == s.datasets[dataset].schema.version))
    && (forall i :: 0 <= i < |items| ==> forall o: ObservationId :: !Answers(s, dataset, items[i].idem, o))
    && (forall i, j :: 0 <= i < j < |items| && items[i].idem == items[j].idem ==> Trim(items[i].idem) == "")
  }

  /** Every candidate is prepared for saving as it was for the dry run. */
  ghost predicate AllAlike(fmt: Formats, s: Shelf, dataset: int, candidates: seq<Values>) {
    dataset in s.datasets && forall i ::
          0 <= i < |candidates| ==> PreparedAlike(fmt, s.datasets[dataset], candidates[i])
  }

  /** The repository after a prefix of the batch stores what the dry run believes. */
  ghost predicate Tracks(s: Shelf, n: Shelf, dataset: int, state: map<string, Values>) {
    forall key: string :: Stored(n, dataset, key) == Believed(s, dataset, state, key)
  }

  predicate ForetoldBy(forecast: Forecast, result: Result) {
    forecast.Planned? && forecast.key == result.key && forecast.decision == result.decision
        && forecast.changed == result.changed
  }

  ghost predicate AllForetold(forecasts: seq<Forecast>, results: seq<Result>) {
    |forecasts| == |results| && forall i :: 0 <= i < |results| ==> ForetoldBy(forecasts[i], results[i])
  }

  ghost predicate Unanswered(n: Shelf, dataset: int, items: seq<Item>, from: nat) {
    forall i :: from <= i < |items| ==> forall o: ObservationId :: !Answers(n, dataset, items[i].idem, o)
  }

  /** One more candidate of the batch. */
  lemma OneMore(fmt: Formats, s: Shelf, n: Shelf, dataset: int, items: seq<Item>, candidates: seq<Values>, i: nat,
                state: map<string, Values>)
    requires Sound(n) && n.datasets == s.datasets && Fresh(s, dataset, items, candidates) && i < |items|
    requires AllAlike(fmt, s, dataset, candidates)
    requires Tracks(s, n, dataset, state) && Unanswered(n, dataset, items, i)
    ensures var schema := s.datasets[dataset].schema;
            var (after, reply) := SaveOne(fmt, n, items[i]);
            match Prepare(fmt, schema, candidates[i])
            case None => reply == Invalid
            case Some(c) =>
              var (forecast, values) := Foretell(Believed(s, dataset, state, c.key), c, schema.preserve);
              && reply.Saved? && forecast.Planned? && ForetoldBy(forecast, reply.result)
              && Tracks(s, after, dataset, state[c.key := values]) && Unanswered(after, dataset, items, i + 1)
  {
    hide Prepare, Sound, Foretell, Write, Fresh, Unanswered;
    var item := items[i];
    FreshItem(s, n, dataset, items, candidates, i);
    assert PreparedAlike(fmt, s.datasets[dataset], candidates[i]);
    assert PreparedItem(fmt, n, item) == Prepare(fmt, s.datasets[dataset].schema, candidates[i]);
    var prepared := PreparedItem(fmt, n, item);
    if prepared.Some? {
      var c := prepared.value;
      WriteDecides(n, item, c);
      var foretold := Foretell(Believed(s, dataset, state, c.key), c, s.datasets[dataset].schema.preserve).1;
      forall key: string
        ensures Stored(Write(n, item, c).0, dataset, key) == Believed(s, dataset, state[c.key := foretold], key)
      {
        WriteStores(n, item, c, key);
      }
      StillUnanswered(s, n, dataset, items, candidates, i, c);
    }
  }

  lemma FreshItem(s: Shelf, n: Shelf, dataset: int, items: seq<Item>, candidates: seq<Values>, i: nat)
    requires n.datasets == s.datasets && Fresh(s, dataset, items, candidates) && i < |items|
    requires Unanswered(n, dataset, items, i)
    ensures dataset in s.datasets && items[i].dataset == dataset && Addressed(n, items[i])
    ensures |items[i].idem| <= LONGEST_IDEM && |items| == |candidates|
    ensures FindObservation(n, dataset, items[i].idem, 0).None?
    ensures items[i].values == candidates[i]
  {
  }

  lemma StillUnanswered(s: Shelf, n: Shelf, dataset: int, items: seq<Item>, candidates: seq<Values>, i: nat,
                        c: Candidate)
    requires Sound(n) && Fresh(s, dataset, items, candidates) && i < |items| && Unanswered(n, dataset, items, i)
    requires Addressed(n, items[i])
    ensures Unanswered(Write(n, items[i], c).0, dataset, items, i + 1)
  {
    WritePlaces(n, items[i], c);
    hide Write;
    var after := Write(n, items[i], c).0;
    forall j, o: ObservationId | i + 1 <= j < |items| ensures !Answers(after, dataset, items[j].idem, o) {
      assert !Answers(n, dataset, items[j].idem, o);
      assert Trim(items[j].idem) == "" || items[i].idem != items[j].idem;
      if o in n.observations {
        OldAnswer(n, o);
      }
    }
  }

  lemma OldAnswer(n: Shelf, o: ObservationId)
    requires Sound(n) && o in n.observations
    ensures n.observations[o].record in n.records && o < n.nextObservation
  {
  }

  /** The dry run and the batch side by side. */
  lemma {:induction false} SideBySide(fmt: Formats, s: Shelf, dataset: int, items: seq<Item>, candidates: seq<Values>,
                                      i: nat)
    requires Sound(s) && Fresh(s, dataset, items, candidates) && AllAlike(fmt, s, dataset, candidates) && i <= |items|
    ensures var (state, forecasts) := ForetellEach(fmt, s, dataset, s.datasets[dataset].schema, candidates[..i]);
            var (n, results) := SaveEach(fmt, s, items[..i]);
            && (results.None? <==> Unusable in forecasts)
            && (results.Some? ==>
                  && AllForetold(forecasts, results.value) && Tracks(s, n, dataset, state)
                  && Unanswered(n, dataset, items, i) && Sound(n) && n.datasets == s.datasets)
  {
    hide SaveOne, Prepare, Foretell, Believed, Tracks, Unanswered, Sound, ForetoldBy, Fresh, AllAlike;
    SizesAgree(s, dataset, items, candidates);
    if i == 0 {
      NothingYet(s, dataset, items, candidates);
    } else {
      SideBySide(fmt, s, dataset, items, candidates, i - 1);
      assert items[..i][..i - 1] == items[..i - 1] && candidates[..i][..i - 1] == candidates[..i - 1];
      var (state, forecasts) := ForetellEach(fmt, s, dataset, s.datasets[dataset].schema, candidates[..i - 1]);
      var (n, results) := SaveEach(fmt, s, items[..i - 1]);
      if results.Some? {
        OneMore(fmt, s, n, dataset, items, candidates, i - 1, state);
        SaveIsSound(fmt, n, items[i - 1]);
      }
    }
  }

  lemma NothingYet(s: Shelf, dataset: int, items: seq<Item>, candidates: seq<Values>)
    requires Fresh(s, dataset, items, candidates)
    ensures Tracks(s, s, dataset, map[]) && Unanswered(s, dataset, items, 0)
  {
  }

  lemma SizesAgree(s: Shelf, dataset: int, items: seq<Item>, candidates: seq<Values>)
    requires Fresh(s, dataset, items, candidates)
    ensures dataset in s.datasets && |items| == |candidates| && OneDataset(items)
  {
  }

  /**
   For candidates that saving does not rewrite, fresh or blank keys and no writer in between, saving the batch
   succeeds exactly if the dry run found every candidate usable, and then decides at every index what it
   foretold: the same key, decision and changed fields, also for keys that occur more than once in the batch.
   Saving rewrites only the keys of magnet datasets.
   */
  lemma PreviewForetellsSave(fmt: Formats, s: Shelf, dataset: int, items: seq<Item>, candidates: seq<Values>)
    requires Sound(s) && Fresh(s, dataset, items, candidates) && 1 <= |items| <= LARGEST_BATCH
    requires s.datasets[dataset].magnet ==> AllAlike(fmt, s, dataset, candidates)
    ensures var forecasts := ForetellEach(fmt, s, dataset, s.datasets[dataset].schema, candidates).1;
            var results := SaveBatch(fmt, s, items).1;
            && (results.Some? <==> Unusable !in forecasts)
            && (results.Some? ==> AllForetold(forecasts, results.value))
  {
    hide Fresh, ForetellEach, SaveEach, AllForetold, Prepare;
    SizesAgree(s, dataset, items, candidates);
    assert items[..|items|] == items && candidates[..|items|] == candidates;
    SideBySide(fmt, s, dataset, items, candidates, |items|);
  }

  // ----- Magnet datasets ---------------------------------------------------------------------------------

  /** Trimmed, the text has neither white space nor small letters. */
  predicate InCapitals(text: string) {
    forall i :: 0 <= i < |Trim(text)| ==> !IsSpace(Trim(text)[i]) && UpperChar(Trim(text)[i]) == Trim(text)[i]
  }

  lemma {:induction false} MagnetKeyConcat(a: string, b: string)
    ensures MagnetKey(a + b) == MagnetKey(a) + MagnetKey(b)
    decreases |b|
  {
    if b == "" {
      assert a + b == a;
    } else {
      assert (a + b)[..|a + b| - 1] == a + b[..|b| - 1];
      MagnetKeyConcat(a, b[..|b| - 1]);
    }
  }

  lemma {:induction false} MagnetKeyOfLeft(s: string)
    ensures MagnetKey(TrimLeft(s)) == MagnetKey(s)
  {
    if s != "" && IsSpace(s[0]) {
      MagnetKeyOfLeft(s[1..]);
      MagnetKeyConcat(s[..1], s[1..]);
      assert s == s[..1] + s[1..] && s[..1][..0] == "";
      assert MagnetKey(s[..1]) == "";
    }
  }

  lemma {:induction false} MagnetKeyOfRight(s: string)
    ensures MagnetKey(TrimRight(s)) == MagnetKey(s)
  {
    if s != "" && IsSpace(s[|s| - 1]) {
      MagnetKeyOfRight(s[..|s| - 1]);
    }
  }

  lemma {:induction false} MagnetKeyIsCapital(s: string)
    ensures forall i ::
              0 <= i < |MagnetKey(s)| ==> !IsSpace(MagnetKey(s)[i]) && UpperChar(MagnetKey(s)[i]) == MagnetKey(s)[i]
    ensures MagnetKey(s) == s <==> forall i :: 0 <= i < |s| ==> !IsSpace(s[i]) && UpperChar(s[i]) == s[i]
    ensures MagnetKey(s) == "" ==> forall i :: 0 <= i < |s| ==> IsSpace(s[i])
    ensures |MagnetKey(s)| <= |s|
  {
    if s != "" {
      MagnetKeyIsCapital(s[..|s| - 1]);
      assert s == s[..|s| - 1] + [s[|s| - 1]];
    }
  }

  /** The canonical form of a key is its trimmed text exactly if that is in capitals. */
  lemma CanonicalKeyIff(text: string)
    ensures MagnetKey(text) == Trim(text) <==> InCapitals(text)
    ensures Trim(MagnetKey(text)) == MagnetKey(text)
    ensures MagnetKey(text) == "" <==> Trim(text) == ""
  {
    MagnetKeyOfLeft(text);
    MagnetKeyOfRight(TrimLeft(text));
    MagnetKeyIsCapital(Trim(text));
    MagnetKeyIsCapital(text);
    TrimTrims(MagnetKey(text));
    TrimTrims(text);
  }

  /** The key field of magnet datasets: one string. */
  predicate KeyedByText(schema: Schema) {
    && schema.uniqueKey == ["canonical_key"] && FieldOf(schema.fields, "canonical_key").Some?
    && var f := FieldOf(schema.fields, "canonical_key").value; f.kind == StringKind && !f.multiple
  }

  predicate HasText(values: Values) {
    "canonical_key" in values && values["canonical_key"].Str?
  }

  /** The stored key tells the text from its form in capitals, unless both are cut to the same one. */
  predicate Told(fmt: Formats, text: string) {
    CutKey(fmt, Trim(text)) == CutKey(fmt, MagnetKey(text)) ==> Trim(text) == MagnetKey(text)
  }

  lemma ShortKeysAreTold(fmt: Formats, text: string)
    ensures |Trim(text)| <= LONGEST_KEY ==> Told(fmt, text)
  {
    MagnetKeyOfLeft(text);
    MagnetKeyOfRight(TrimLeft(text));
    MagnetKeyIsCapital(Trim(text));
  }

  lemma KeyOfText(fmt: Formats, schema: Schema, values: Values)
    requires KeyedByText(schema) && Prepare(fmt, schema, values).Some?
    ensures HasText(values) && Trim(values["canonical_key"].text) != ""
    ensures var c := Prepare(fmt, schema, values).value;
            && c.values.Keys == values.Keys && c.values["canonical_key"] == Str(Trim(values["canonical_key"].text))
            && c.key == CutKey(fmt, Trim(values["canonical_key"].text))
  {
    var c := Prepare(fmt, schema, values).value;
    assert KeyFieldFilled(schema, c.values, schema.uniqueKey[0]);
    assert EntryAccepted(fmt, schema, values, "canonical_key");
    TrimTrims(values["canonical_key"].text);
    var key := Lookup(c.values, "canonical_key");
    assert schema.uniqueKey[..0] == [] && KeyParts(fmt, [], c.values) == [];
    assert KeyParts(fmt, schema.uniqueKey, c.values) == [KeyText(fmt, key)];
  }

  /** Another text in the key field, usable as well, changes only that field. */
  lemma OtherText(fmt: Formats, schema: Schema, values: Values, text: string)
    requires KeyedByText(schema) && HasText(values) && (Trim(text) == "" <==> Trim(values["canonical_key"].text) == "")
    ensures Prepare(fmt, schema, values["canonical_key" := Str(text)]).Some? <==> Prepare(fmt, schema, values).Some?
    ensures Trim(text) == Trim(values["canonical_key"].text) ==>
              Prepare(fmt, schema, values["canonical_key" := Str(text)]) == Prepare(fmt, schema, values)
  {
    hide NormalizeValues, EntriesAccepted, RequiredFilled, KeyFilled, CanonicalKey, KeyedByText;
    EntriesAlike(fmt, schema, values, text);
    if EntriesAccepted(fmt, schema, values) {
      ValuesAlike(fmt, schema, values, text);
      FilledAlike(schema, NormalizeValues(fmt, schema, values),
                  NormalizeValues(fmt, schema, values["canonical_key" := Str(text)]));
    }
  }

  lemma ValuesAlike(fmt: Formats, schema: Schema, values: Values, text: string)
    requires KeyedByText(schema) && HasText(values) && (Trim(text) == "" <==> Trim(values["canonical_key"].text) == "")
    requires EntriesAccepted(fmt, schema, values) && EntriesAccepted(fmt, schema, values["canonical_key" := Str(text)])
    ensures var a, b := NormalizeValues(fmt, schema, values),
            NormalizeValues(fmt, schema, values["canonical_key" := Str(text)]);
            && (forall k: string :: Empty(Lookup(a, k)) <==> Empty(Lookup(b, k)))
            && (Trim(text) == Trim(values["canonical_key"].text) ==> a == b)
  {
    hide NormalizeValues, EntriesAccepted, Trim, KeyedByText;
    var a := NormalizeValues(fmt, schema, values);
    var b := NormalizeValues(fmt, schema, values["canonical_key" := Str(text)]);
    TextNormalized(fmt, schema, values);
    TextNormalized(fmt, schema, values["canonical_key" := Str(text)]);
    OthersAlike(fmt, schema, values, text);
    if Trim(text) == Trim(values["canonical_key"].text) {
      assert a["canonical_key"] == b["canonical_key"];
      SameLookups(a, b);
    }
  }

  lemma SameLookups(a: Values, b: Values)
    requires a.Keys == b.Keys && forall k :: k in a.Keys ==> Lookup(a, k) == Lookup(b, k)
    ensures a == b
  {
    forall k | k in a.Keys ensures a[k] == b[k] {
      assert Lookup(a, k) == a[k] && Lookup(b, k) == b[k];
    }
  }

  lemma TextNormalized(fmt: Formats, schema: Schema, values: Values)
    requires KeyedByText(schema) && HasText(values) && EntriesAccepted(fmt, schema, values)
    ensures var a := NormalizeValues(fmt, schema, values);
            && a.Keys == values.Keys && a["canonical_key"] == Str(Trim(values["canonical_key"].text))
            && Trim(Trim(values["canonical_key"].text)) == Trim(values["canonical_key"].text)
  {
    assert EntryAccepted(fmt, schema, values, "canonical_key");
    TrimTrims(values["canonical_key"].text);
  }

  lemma OthersAlike(fmt: Formats, schema: Schema, values: Values, text: string)
    requires EntriesAccepted(fmt, schema, values) && EntriesAccepted(fmt, schema, values["canonical_key" := Str(text)])
    ensures forall k: string :: k != "canonical_key" ==>
              Lookup(NormalizeValues(fmt, schema, values), k)
                  == Lookup(NormalizeValues(fmt, schema, values["canonical_key" := Str(text)]), k)
  {
  }

  lemma EntriesAlike(fmt: Formats, schema: Schema, values: Values, text: string)
    requires KeyedByText(schema) && HasText(values)
    ensures EntriesAccepted(fmt, schema, values["canonical_key" := Str(text)]) <==> EntriesAccepted(fmt, schema, values)
  {
    var other := values["canonical_key" := Str(text)];
    forall k | k in values ensures EntryAccepted(fmt, schema, other, k) <==> EntryAccepted(fmt, schema, values, k) {
    }
    assert other.Keys == values.Keys;
  }

  lemma FilledAlike(schema: Schema, a: Values, b: Values)
    requires forall k: string :: Empty(Lookup(a, k)) <==> Empty(Lookup(b, k))
    ensures RequiredFilled(schema, a) <==> RequiredFilled(schema, b)
    ensures KeyFilled(schema, a) <==> KeyFilled(schema, b)
  {
    assert forall i :: 0 <= i < |schema.uniqueKey| ==> (KeyFieldFilled(schema, a, schema.uniqueKey[i]) <==>
                                                          KeyFieldFilled(schema, b, schema.uniqueKey[i]));
  }

  /** Saving prepares a usable candidate of a magnet dataset like the dry run exactly if its key is in capitals. */
  lemma AlikeIffInCapitals(fmt: Formats, d: Dataset, values: Values)
    requires d.magnet && KeyedByText(d.schema)
    ensures PreparedAlike(fmt, d, values) <==>
              Prepare(fmt, d.schema, values).None? || InCapitals(values["canonical_key"].text)
    ensures Prepare(fmt, d.schema, Canonical(d, values)).Some? <==> Prepare(fmt, d.schema, values).Some?
  {
    hide Prepare;
    if HasText(values) {
      var text := values["canonical_key"].text;
      CanonicalKeyIff(text);
      OtherText(fmt, d.schema, values, MagnetKey(text));
      if Prepare(fmt, d.schema, values).Some? {
        KeyOfText(fmt, d.schema, values);
        KeyOfText(fmt, d.schema, Canonical(d, values));
      }
    } else if Prepare(fmt, d.schema, values).Some? {
      KeyOfText(fmt, d.schema, values);
    }
  }

  lemma {:induction false} ForetoldKeys(fmt: Formats, s: Shelf, dataset: int, schema: Schema, candidates: seq<Values>)
    ensures var forecasts := ForetellEach(fmt, s, dataset, schema, candidates).1;
            |forecasts| == |candidates| && forall i :: 0 <= i < |forecasts| && forecasts[i].Planned? ==>
              Prepare(fmt, schema, candidates[i]).Some? && forecasts[i].key
                  == Prepare(fmt, schema, candidates[i]).value.key
  {
    hide Prepare, Believed;
    if candidates != [] {
      ForetoldKeys(fmt, s, dataset, schema, candidates[..|candidates| - 1]);
    }
  }

  lemma {:induction false} SavedKeys(fmt: Formats, s: Shelf, items: seq<Item>, dataset: int)
    requires Sound(s) && SaveEach(fmt, s, items).1.Some? && dataset in s.datasets && forall i ::
               0 <= i < |items| ==> items[i].dataset == dataset
    ensures var results, d := SaveEach(fmt, s, items).1.value, s.datasets[dataset];
            |results| == |items| && forall i :: 0 <= i < |results| ==>
              Prepare(fmt, d.schema, Canonical(d, items[i].values)).Some?
              && results[i].key == Prepare(fmt, d.schema, Canonical(d, items[i].values)).value.key
  {
    hide SaveOne, Prepare, Sound;
    if items != [] {
      var front, last := items[..|items| - 1], items[|items| - 1];
      SavedKeys(fmt, s, front, dataset);
      SaveEachIsSound(fmt, s, front);
      SavedKey(fmt, SaveEach(fmt, s, front).0, last);
    }
  }

  lemma SavedKey(fmt: Formats, s: Shelf, item: Item)
    requires SaveOne(fmt, s, item).1.Saved?
    ensures Addressed(s, item) && PreparedItem(fmt, s, item).Some?
    ensures SaveOne(fmt, s, item).1.result.key == PreparedItem(fmt, s, item).value.key
  {
    hide Prepare, Outcome;
  }

  /**
   For a magnet dataset keyed by its text and candidates the dry run found usable, saving does what was
   foretold exactly if every key is in capitals.  Capitals are always foretold rightly; that nothing else is needs
   stored keys that tell a key from its form in capitals, as those of at most 512 characters do.
   */
  lemma MagnetForecastIff(fmt: Formats, s: Shelf, dataset: int, items: seq<Item>, candidates: seq<Values>)
    requires Sound(s) && Fresh(s, dataset, items, candidates) && 1 <= |items| <= LARGEST_BATCH
    requires s.datasets[dataset].magnet && KeyedByText(s.datasets[dataset].schema)
    requires Unusable !in ForetellEach(fmt, s, dataset, s.datasets[dataset].schema, candidates).1
    ensures var forecasts := ForetellEach(fmt, s, dataset, s.datasets[dataset].schema, candidates).1;
            var results := SaveBatch(fmt, s, items).1;
            && (forall i :: 0 <= i < |candidates| ==> HasText(candidates[i]))
            && ((forall i :: 0 <= i < |candidates| ==> InCapitals(candidates[i]["canonical_key"].text)) ==>
                  results.Some? && AllForetold(forecasts, results.value))
            && ((forall i :: 0 <= i < |candidates| ==> Told(fmt, candidates[i]["canonical_key"].text)) ==>
                  (results.Some? && AllForetold(forecasts, results.value) <==>
                    forall i :: 0 <= i < |candidates| ==> InCapitals(candidates[i]["canonical_key"].text)))
  {
    hide Prepare, Fresh, SaveEach, ForetellEach, Sound, KeyedByText, InCapitals;
    SizesAgree(s, dataset, items, candidates);
    var d := s.datasets[dataset];
    var forecasts, results := ForetellEach(fmt, s, dataset, d.schema, candidates).1, SaveBatch(fmt, s, items).1;
    ForetoldKeys(fmt, s, dataset, d.schema, candidates);
    forall i | 0 <= i < |candidates| ensures HasText(candidates[i]) && Prepare(fmt, d.schema, candidates[i]).Some? {
      assert forecasts[i] in forecasts;
      KeyOfText(fmt, d.schema, candidates[i]);
    }
    if forall i :: 0 <= i < |candidates| ==> InCapitals(candidates[i]["canonical_key"].text) {
      forall i | 0 <= i < |candidates| ensures PreparedAlike(fmt, d, candidates[i]) {
        AlikeIffInCapitals(fmt, d, candidates[i]);
      }
      PreviewForetellsSave(fmt, s, dataset, items, candidates);
    }
    if results.Some? && AllForetold(forecasts, results.value) && forall i ::
          0 <= i < |candidates| ==> Told(fmt, candidates[i]["canonical_key"].text) {
      ItemsOf(s, dataset, items, candidates);
      SavedKeys(fmt, s, items, dataset);
      forall i | 0 <= i < |candidates| ensures InCapitals(candidates[i]["canonical_key"].text) {
        assert ForetoldBy(forecasts[i], results.value[i]);
        SameKeyInCapitals(fmt, d, candidates[i]);
      }
    }
  }

  lemma ItemsOf(s: Shelf, dataset: int, items: seq<Item>, candidates: seq<Values>)
    requires Fresh(s, dataset, items, candidates)
    ensures |items| == |candidates| && forall i ::
              0 <= i < |items| ==> items[i].dataset == dataset && items[i].values == candidates[i]
  {
  }

  /** Keys that are told are saved as foretold only if they are in capitals. */
  lemma SameKeyInCapitals(fmt: Formats, d: Dataset, values: Values)
    requires d.magnet && KeyedByText(d.schema) && HasText(values) && Told(fmt, values["canonical_key"].text)
    requires Prepare(fmt, d.schema, values).Some? && Prepare(fmt, d.schema, Canonical(d, values)).Some?
    requires Prepare(fmt, d.schema, values).value.key == Prepare(fmt, d.schema, Canonical(d, values)).value.key
    ensures InCapitals(values["canonical_key"].text)
  {
    var text := values["canonical_key"].text;
    CanonicalKeyIff(text);
    KeyOfText(fmt, d.schema, values);
    KeyOfText(fmt, d.schema, Canonical(d, values));
  }

  const MAGNETS := Dataset(Schema(1, ["canonical_key"], true, [Field("canonical_key", StringKind, true, false)]), true,
                           true)
  const SMALL := map["canonical_key" := Str("ab")]
  const LARGE := map["canonical_key" := Str("AB")]
  const MAGNET_SHELF := Shelf(map[1 := MAGNETS], map[1 := Record(1, "AB", LARGE)], map[], [], 2, 1)

  lemma SmallIsLarge()
    ensures Canonical(MAGNETS, SMALL) == LARGE
  {
    assert MagnetKey("ab") == "AB" by {
      assert "ab"[..1] == "a" && "ab"[..1][..0] == "" && MagnetKey("") == "" && MagnetKey("a") == "A";
    }
  }

  lemma SmallIsForetoldNew(fmt: Formats)
    ensures ForetellEach(fmt, MAGNET_SHELF, 1, MAGNETS.schema, [SMALL]).1
            == [Planned("ab", SMALL, Created, Sorted(SMALL.Keys))]
  {
    hide Canonical, MagnetKey, Prepare, Sorted;
    SimpleKey(fmt, "ab");
    assert [SMALL][..0] == [] && ForetellEach(fmt, MAGNET_SHELF, 1, MAGNETS.schema, []) == (map[], []);
    assert FindRecord(MAGNET_SHELF, 1, "ab", 0).None?
        by { assert forall r: RecordId :: !Holds(MAGNET_SHELF, 1, "ab", r); }
  }

  lemma SmallIsFoundAgain(fmt: Formats)
    ensures SaveOne(fmt, MAGNET_SHELF, Item(1, 0, SMALL, "")).1.Saved?
    ensures SaveOne(fmt, MAGNET_SHELF, Item(1, 0, SMALL, "")).1.result.decision == Unchanged
  {
    SimpleKey(fmt, "AB");
    SmallIsLarge();
    hide Canonical, MagnetKey, Prepare, Sorted;
    assert FindRecord(MAGNET_SHELF, 1, "AB", 1) == Some(1) && FindRecord(MAGNET_SHELF, 1, "AB", 0) == Some(1);
    assert ChangedKeys(LARGE, LARGE, true) == {};
  }

  /**
   Magnet keys are put into capitals when they are saved but not in the dry run: it foretells a new record, saving
   finds the old one.
   */
  lemma MagnetsAreForetoldWrongly(fmt: Formats)
    ensures Sound(MAGNET_SHELF)
    ensures ForetellEach(fmt, MAGNET_SHELF, 1, MAGNETS.schema, [SMALL]).1
            == [Planned("ab", SMALL, Created, Sorted(SMALL.Keys))]
    ensures SaveOne(fmt, MAGNET_SHELF, Item(1, 0, SMALL, "")).1.Saved?
    ensures SaveOne(fmt, MAGNET_SHELF, Item(1, 0, SMALL, "")).1.result.decision == Unchanged
  {
    SmallIsForetoldNew(fmt);
    SmallIsFoundAgain(fmt);
    hide SaveOne, ForetellEach;
  }

  lemma SimpleKey(fmt: Formats, key: string)
    requires key == "ab" || key == "AB"
    ensures Prepare(fmt, MAGNETS.schema, map["canonical_key" := Str(key)])
            == Some(Candidate(key, map["canonical_key" := Str(key)]))
  {
    TrimTrims(key);
    var raw := map["canonical_key" := Str(key)];
    var f := MAGNETS.schema.fields[0];
    assert FieldOf(MAGNETS.schema.fields, "canonical_key") == Some(f);
    assert NormalizeEntry(fmt, f, Str(key)) == Some(Str(key));
    assert NormalizeValues(fmt, MAGNETS.schema, raw) == raw;
    assert KeyParts(fmt, ["canonical_key"], raw) == [key] by {
      assert ["canonical_key"][..0] == [] && KeyParts(fmt, [], raw) == [];
    }
  }

  // ----- Foretelling conflicts --------------------------------------------------------------------------

  datatype KeyCheck = KeyFree | KeyConflicts | KeyTooLong | CandidateUnusable

  /** Whether writing the candidate under this key would be a conflict. */
  method PreviewIdempotency(fmt: Formats, store: RecordStore.Store, dataset: int, key: string, values: Values,
                            schema: Schema) returns (check: KeyCheck)
    ensures check == CheckKey(fmt, store.View(), dataset, key, values, schema)
  {
    if Trim(key) == "" {
      return KeyFree;
    }
    if |key| > LONGEST_IDEM {
      return KeyTooLong;
    }
    var prepared, _ := PrepareCandidate(fmt, schema, values);
    if prepared.None? {
      return CandidateUnusable;
    }
    var o := store.LookUpObservation(dataset, key);
    if o.None? {
      return KeyFree;
    }
    var earlier := store.observations[o.value];
    if store.records[earlier.record].key != prepared.value.key || earlier.values != prepared.value.values {
      return KeyConflicts;
    }
    check := KeyFree;
  }

  function CheckKey(fmt: Formats, s: Shelf, dataset: int, key: string, values: Values, schema: Schema): KeyCheck {
    if Trim(key) == "" then KeyFree
    else if |key| > LONGEST_IDEM then KeyTooLong
    else
      match Prepare(fmt, schema, values)
      case None => CandidateUnusable
      case Some(c) =>
        match FindObservation(s, dataset, key, 0)
        case None => KeyFree
        case Some(o) =>
          if s.records[s.observations[o].record].key != c.key || s.observations[o].values != c.values then KeyConflicts
              else KeyFree
  }

  /** The candidate is the one the observation was made of. */
  predicate IsObserved(s: Shelf, o: ObservationId, c: Candidate)
    requires o in s.observations && s.observations[o].record in s.records
  {
    s.records[s.observations[o].record].key == c.key && s.observations[o].values == c.values
  }

  /** The key of the request, if it is one, was not used before. */
  predicate KeyUnused(s: Shelf, item: Item) {
    Trim(item.idem) == "" || |item.idem| > LONGEST_IDEM || FindObservation(s, item.dataset, item.idem, 0).None?
  }

  /**
   The check announces a conflict exactly when saving the candidate under the key is one, if saving prepares it
   like the check or the key is unused.  Otherwise they agree exactly if the form that saving or the check
   would take for the observed one is none: neither usable form is observed, or the only usable one is.
   */
  lemma ConflictIsForetold(fmt: Formats, s: Shelf, item: Item)
    requires Sound(s) && Addressed(s, item)
    ensures var d := s.datasets[item.dataset];
            var checked, saved := Prepare(fmt, d.schema, item.values),
                Prepare(fmt, d.schema, Canonical(d, item.values));
            (CheckKey(fmt, s, item.dataset, item.idem, item.values, d.schema) == KeyConflicts <==>
               SaveOne(fmt, s, item).1 == Conflict)
            <==>
            (|| PreparedAlike(fmt, d, item.values) || KeyUnused(s, item)
             || var o := FindObservation(s, item.dataset, item.idem, 0).value;
                if checked.Some? && saved.Some? then !IsObserved(s, o, checked.value) && !IsObserved(s, o, saved.value)
                else if checked.Some? then IsObserved(s, o, checked.value)
                else IsObserved(s, o, saved.value))
  {
    hide Prepare, Write;
    if Trim(item.idem) == "" {
      assert forall o: ObservationId :: !Answers(s, item.dataset, item.idem, o);
    } else {
      assert Trim("") == "";
    }
  }

  /** In particular for every dataset that is not a magnet one. */
  lemma OrdinaryConflictIsForetold(fmt: Formats, s: Shelf, item: Item)
    requires Sound(s) && Addressed(s, item) && !s.datasets[item.dataset].magnet
    ensures CheckKey(fmt, s, item.dataset, item.idem, item.values, s.datasets[item.dataset].schema) == KeyConflicts
            <==> SaveOne(fmt, s, item).1 == Conflict
  {
    ConflictIsForetold(fmt, s, item);
    hide Prepare, SaveOne, CheckKey;
  }

  /**
   For a magnet dataset keyed by its text, a used key and a usable candidate whose key is not in capitals, check and
   saving agree exactly if what the key was used for is neither the candidate as it is nor its form in capitals.
   */
  lemma MagnetConflictIff(fmt: Formats, s: Shelf, item: Item)
    requires Sound(s) && Addressed(s, item) && !KeyUnused(s, item)
    requires s.datasets[item.dataset].magnet && KeyedByText(s.datasets[item.dataset].schema)
    requires Prepare(fmt, s.datasets[item.dataset].schema, item.values).Some?
    requires HasText(item.values) && !InCapitals(item.values["canonical_key"].text)
    ensures var d := s.datasets[item.dataset];
            var o := FindObservation(s, item.dataset, item.idem, 0).value;
            var checked, saved := Prepare(fmt, d.schema, item.values), PreparedItem(fmt, s, item);
            && saved.Some? && checked != saved
            && ((CheckKey(fmt, s, item.dataset, item.idem, item.values, d.schema) == KeyConflicts <==>
                   SaveOne(fmt, s, item).1 == Conflict)
                <==> !IsObserved(s, o, checked.value) && !IsObserved(s, o, saved.value))
  {
    AlikeIffInCapitals(fmt, s.datasets[item.dataset], item.values);
    ConflictIsForetold(fmt, s, item);
    hide Prepare, SaveOne, CheckKey, IsObserved, InCapitals, Sound;
  }

  /** The prepared forms of a usable candidate differ in their values unless its key is in capitals. */
  lemma FormsDiffer(fmt: Formats, d: Dataset, values: Values)
    requires d.magnet && KeyedByText(d.schema) && Prepare(fmt, d.schema, Canonical(d, values)).Some?
    ensures HasText(values) && Prepare(fmt, d.schema, values).Some?
    ensures InCapitals(values["canonical_key"].text) ==>
              Prepare(fmt, d.schema, values) == Prepare(fmt, d.schema, Canonical(d, values))
    ensures !InCapitals(values["canonical_key"].text) ==>
              Prepare(fmt, d.schema, values).value.values != Prepare(fmt, d.schema, Canonical(d, values)).value.values
  {
    hide Prepare, InCapitals;
    AlikeIffInCapitals(fmt, d, values);
    KeyOfText(fmt, d.schema, values);
    KeyOfText(fmt, d.schema, Canonical(d, values));
    CanonicalKeyIff(values["canonical_key"].text);
  }

  /** A request that was carried out is announced as a conflict exactly if its key text is not in capitals. */
  lemma CarriedOutCheck(fmt: Formats, s: Shelf, item: Item, result: Result)
    requires Sound(s) && CarriedOut(fmt, s, item, result)
    requires s.datasets[item.dataset].magnet && KeyedByText(s.datasets[item.dataset].schema)
    ensures HasText(item.values)
    ensures CheckKey(fmt, s, item.dataset, item.idem, item.values, s.datasets[item.dataset].schema) == KeyConflicts
            <==> !InCapitals(item.values["canonical_key"].text)
  {
    hide Prepare, InCapitals;
    FormsDiffer(fmt, s.datasets[item.dataset], item.values);
    assert Answers(s, item.dataset, item.idem, result.observation);
  }

  /**
   A saved request under a key, sent again at any later time: saving answers it once more and writes nothing, while
   for magnet datasets the check announces a conflict exactly if the key text is not in capitals.
   */
  lemma ResendIsMisannouncedIff(fmt: Formats, s: Shelf, item: Item, ops: seq<Op>)
    requires Sound(s) && Logged(s) && SaveOne(fmt, s, item).1.Saved? && Trim(item.idem) != ""
    requires s.datasets[item.dataset].magnet && KeyedByText(s.datasets[item.dataset].schema)
    requires forall i :: 0 <= i < |ops| && ops[i].EditOp? ==> ops[i].dataset != item.dataset
    ensures var later := History(fmt, SaveOne(fmt, s, item).0, ops);
            && SaveOne(fmt, later, item).0 == later && SaveOne(fmt, later, item).1.Saved?
            && HasText(item.values) && item.dataset in later.datasets
            && var schema := later.datasets[item.dataset].schema;
               CheckKey(fmt, later, item.dataset, item.idem, item.values, schema) == KeyConflicts
               <==> !InCapitals(item.values["canonical_key"].text)
  {
    hide SaveOne, CarriedOut, Sound, Logged, CheckKey, KeyedByText, InCapitals, Write;
    var once, result := SaveOne(fmt, s, item).0, SaveOne(fmt, s, item).1.result;
    SaveIsSound(fmt, s, item);
    SaveLogs(fmt, s, item);
    SaveCarriesOut(fmt, s, item);
    CarriedOutForGood(fmt, once, ops, [item], [result]);
    HistoryKeeps(fmt, once, ops);
    var later := History(fmt, once, ops);
    assert CarriedOut(fmt, later, [item][0], [result][0]);
    CarriedOutReplays(fmt, later, item, result);
    CarriedOutIsAddressed(fmt, once, item, result);
    DatasetStays(fmt, once, item.dataset, ops);
    CarriedOutCheck(fmt, later, item, result);
  }
}
