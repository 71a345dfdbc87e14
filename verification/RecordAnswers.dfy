/**
 What preparing and saving a candidate mean: which entries are accepted and what is kept of them, which candidates
 share a key and therefore a record, what is answered, and what is stored.
 */
module RecordAnswers {
  import opened Common
  import opened Json
  import opened RecordModel
  import opened RecordLog

  // ----- Entries ------------------------------------------------------------------------------------------

  /** The value is one of this kind. */
  predicate IsOfKind(fmt: Formats, kind: Kind, v: Json) {
    match kind
    case StringKind => v.Str?
    case UrlKind => v.Str? && (fmt.isUrl(Trim(v.text)) || MAGNET_PREFIX <= Trim(v.text))
    case IntegerKind => v.Num? && v.number == v.number.Floor as real
    case NumberKind => v.Num?
    case BooleanKind => v.Bool?
    case DateTimeKind => v.Str? && fmt.isDateTime(v.text)
    case JsonKind => true
    case UnsupportedKind(_) => false
  }

  /** Texts and addresses lose the white space around them, other values are kept as they are. */
  predicate IsCleaned(kind: Kind, v: Json, cleaned: Json) {
    if kind == StringKind || kind == UrlKind then cleaned.Str? && v.Str? && cleaned.text == Trim(v.text)
    else cleaned == v
  }

  lemma ValueIff(fmt: Formats, kind: Kind, v: Json)
    ensures Normalize(fmt, kind, v).Some? <==> IsOfKind(fmt, kind, v)
    ensures Normalize(fmt, kind, v).Some? ==> IsCleaned(kind, v, Normalize(fmt, kind, v).value)
  {
  }

  lemma {:induction false} ItemsIff(fmt: Formats, kind: Kind, items: seq<Json>)
    ensures NormalizeItems(fmt, kind, items).Some? <==> forall i :: 0 <= i < |items| ==> IsOfKind(fmt, kind, items[i])
    ensures NormalizeItems(fmt, kind, items).Some? ==>
              var out := NormalizeItems(fmt, kind, items).value;
              |out| == |items| && forall i :: 0 <= i < |items| ==> IsCleaned(kind, items[i], out[i])
  {
    hide Normalize, IsOfKind, IsCleaned;
    if items != [] {
      ItemsIff(fmt, kind, items[..|items| - 1]);
      ValueIff(fmt, kind, items[|items| - 1]);
    }
  }

  /** An entry is accepted if it is null, a value of its field's kind, or a list of them if the field is multiple. */
  lemma EntryIff(fmt: Formats, f: Field, v: Json)
    ensures NormalizeEntry(fmt, f, v).Some? <==>
              || v.Null?
              || (!f.multiple && IsOfKind(fmt, f.kind, v))
              || (f.multiple && v.Arr? && forall i :: 0 <= i < |v.items| ==> IsOfKind(fmt, f.kind, v.items[i]))
    ensures NormalizeEntry(fmt, f, v).Some? ==>
              var out := NormalizeEntry(fmt, f, v).value;
              if v.Null? then out.Null?
              else if !f.multiple then IsCleaned(f.kind, v, out)
              else out.Arr? && |out.items| == |v.items|
                   && forall i :: 0 <= i < |v.items| ==> IsCleaned(f.kind, v.items[i], out.items[i])
  {
    hide Normalize, IsOfKind, IsCleaned, NormalizeItems;
    ValueIff(fmt, f.kind, v);
    if v.Arr? {
      ItemsIff(fmt, f.kind, v.items);
    }
  }

  lemma CleaningKeepsEmptiness(fmt: Formats, f: Field, v: Json)
    requires NormalizeEntry(fmt, f, v).Some?
    ensures Empty(NormalizeEntry(fmt, f, v).value) <==> Empty(v)
  {
    EntryIff(fmt, f, v);
    if v.Str? {
      TrimTrims(v.text);
    }
    hide Normalize, IsOfKind, NormalizeItems;
  }

  /** The field has a single value and the candidate fills it. */
  predicate FillsKeyField(schema: Schema, raw: Values, name: string) {
    FieldOf(schema.fields, name).Some? && !FieldOf(schema.fields, name).value.multiple && !Empty(Lookup(raw, name))
  }

  /**
   A candidate is prepared exactly if the dataset has a key, every entry is accepted by a declared field, and required
   fields and key fields, which are single ones, are filled.
   */
  lemma PreparedIff(fmt: Formats, schema: Schema, raw: Values)
    ensures Prepare(fmt, schema, raw).Some? <==>
              && schema.uniqueKey != []
              && (forall name :: name in raw ==>
                    FieldOf(schema.fields, name).Some?
                    && NormalizeEntry(fmt, FieldOf(schema.fields, name).value, raw[name]).Some?)
              && (forall i :: 0 <= i < |schema.fields| && schema.fields[i].required ==>
                    !Empty(Lookup(raw, schema.fields[i].key)))
              && (forall i :: 0 <= i < |schema.uniqueKey| ==> FillsKeyField(schema, raw, schema.uniqueKey[i]))
  {
    hide NormalizeEntry, CanonicalKey;
    assert EntriesAccepted(fmt, schema, raw) <==>
           forall name :: name in raw ==>
             FieldOf(schema.fields, name).Some?
             && NormalizeEntry(fmt, FieldOf(schema.fields, name).value, raw[name]).Some?;
    if EntriesAccepted(fmt, schema, raw) {
      forall name: string ensures Empty(Lookup(NormalizeValues(fmt, schema, raw), name)) <==> Empty(Lookup(raw, name)) {
        if name in raw {
          assert EntryAccepted(fmt, schema, raw, name);
          CleaningKeepsEmptiness(fmt, FieldOf(schema.fields, name).value, raw[name]);
        }
      }
    }
  }

  /** The candidate keeps every entry and no other, and its declared field accepts each. */
  lemma PreparedEntries(fmt: Formats, schema: Schema, raw: Values, name: string)
    requires Prepare(fmt, schema, raw).Some?
    ensures var out := Prepare(fmt, schema, raw).value.values;
            && (name in out <==> name in raw)
            && (name in raw ==>
                  && FieldOf(schema.fields, name).Some?
                  && NormalizeEntry(fmt, FieldOf(schema.fields, name).value, raw[name]) == Some(out[name]))
  {
    hide CanonicalKey, NormalizeEntry;
    assert name in raw ==> EntryAccepted(fmt, schema, raw, name);
  }

  /** The declaration that counts is the last one of the name. */
  lemma {:induction false} LastDeclarationCounts(fields: seq<Field>, name: string)
    ensures FieldOf(fields, name).Some? ==> exists i ::
              0 <= i < |fields| && fields[i].key == name && FieldOf(fields, name) == Some(fields[i])
              && forall j :: i < j < |fields| ==> fields[j].key != name
  {
    if fields != [] && fields[|fields| - 1].key != name {
      LastDeclarationCounts(fields[..|fields| - 1], name);
      if FieldOf(fields, name).Some? {
        var front := fields[..|fields| - 1];
        var i :| 0 <= i < |front| && front[i].key == name && FieldOf(front, name) == Some(front[i])
            && forall j :: i < j < |front| ==> front[j].key != name;
        assert fields[i].key == name && FieldOf(fields, name) == Some(fields[i]);
      }
    }
  }

  // ----- Keys ---------------------------------------------------------------------------------------------

  function Spelled(fmt: Formats, v: Json): string {
    match v
    case Str(text) => text
    case _ => fmt.show(v)
  }

  /** Two candidates agree in the text of every key field. */
  predicate SameParts(fmt: Formats, schema: Schema, a: Values, b: Values) {
    forall i :: 0 <= i < |schema.uniqueKey| ==>
      Spelled(fmt, Lookup(a, schema.uniqueKey[i])) == Spelled(fmt, Lookup(b, schema.uniqueKey[i]))
  }

  /** The texts of the key fields in order. */
  function PartTexts(fmt: Formats, names: seq<string>, values: Values): seq<string> {
    seq(|names|, i requires 0 <= i < |names| => Spelled(fmt, Lookup(values, names[i])))
  }

  /** The key before it is cut: the text of the only key field, or the encoded list of the texts. */
  function WholeKey(fmt: Formats, schema: Schema, values: Values): string
    requires schema.uniqueKey != []
  {
    var texts := PartTexts(fmt, schema.uniqueKey, values);
    if |schema.uniqueKey| > 1 then fmt.encode(texts) else texts[0]
  }

  lemma {:induction false} PartsAreTexts(fmt: Formats, names: seq<string>, values: Values)
    ensures KeyParts(fmt, names, values) == PartTexts(fmt, names, values)
  {
    if names != [] {
      PartsAreTexts(fmt, names[..|names| - 1], values);
    }
  }

  /** The key of a candidate is the whole key, of which more than 512 characters are cut to 400 and its hash. */
  lemma KeyIs(fmt: Formats, schema: Schema, raw: Values)
    requires Prepare(fmt, schema, raw).Some?
    ensures schema.uniqueKey != []
    ensures var c := Prepare(fmt, schema, raw).value;
            var whole := WholeKey(fmt, schema, c.values);
            if |whole| <= 512 then c.key == whole
            else |c.key| == 401 + |fmt.digest(whole)| && c.key == whole[..400] + "-" + fmt.digest(whole)
  {
    PartsAreTexts(fmt, schema.uniqueKey, Prepare(fmt, schema, raw).value.values);
    hide Acceptable, NormalizeValues, KeyParts;
  }

  /** Different lists of texts are encoded differently, and different keys hashed differently. */
  ghost predicate TellsApart(fmt: Formats) {
    && (forall a, b :: fmt.encode(a) == fmt.encode(b) ==> a == b)
    && (forall a, b :: fmt.digest(a) == fmt.digest(b) ==> a == b)
  }

  /** A short key that looks like the cut form of a long one. */
  predicate LooksCut(fmt: Formats, short: string, long: string) {
    |short| <= 512 < |long| && short == long[..400] + "-" + fmt.digest(long)
  }

  lemma WholeKeysTell(fmt: Formats, schema: Schema, a: Values, b: Values)
    requires TellsApart(fmt) && schema.uniqueKey != []
    ensures WholeKey(fmt, schema, a) == WholeKey(fmt, schema, b) <==> SameParts(fmt, schema, a, b)
  {
    var names := schema.uniqueKey;
    var x, y := PartTexts(fmt, names, a), PartTexts(fmt, names, b);
    hide Spelled;
    assert forall i :: 0 <= i < |names| ==> x[i] == Spelled(fmt, Lookup(a, names[i]));
    assert forall i :: 0 <= i < |names| ==> y[i] == Spelled(fmt, Lookup(b, names[i]));
    assert x == y <==> SameParts(fmt, schema, a, b);
  }

  lemma CutKeysTell(fmt: Formats, a: string, b: string)
    requires TellsApart(fmt) && |a| > 512 && |b| > 512
    ensures a[..400] + "-" + fmt.digest(a) == b[..400] + "-" + fmt.digest(b) <==> a == b
  {
    var x, y := a[..400] + "-" + fmt.digest(a), b[..400] + "-" + fmt.digest(b);
    assert x[401..] == fmt.digest(a) && y[401..] == fmt.digest(b);
  }

  /**
   Two prepared candidates of one schema have the same key exactly if they agree in the text of every key field, apart
   from a key of at most 512 characters that happens to be the cut form of a longer one.
   */
  lemma KeysTellCandidates(fmt: Formats, schema: Schema, a: Values, b: Values)
    requires TellsApart(fmt) && Prepare(fmt, schema, a).Some? && Prepare(fmt, schema, b).Some?
    ensures schema.uniqueKey != []
    ensures var x, y := Prepare(fmt, schema, a).value, Prepare(fmt, schema, b).value;
            var wholeX, wholeY := WholeKey(fmt, schema, x.values), WholeKey(fmt, schema, y.values);
            && (x.key == y.key <==>
                  || SameParts(fmt, schema, x.values, y.values)
                  || LooksCut(fmt, wholeX, wholeY) || LooksCut(fmt, wholeY, wholeX))
            && (|wholeX| <= 512 && |wholeY| <= 512 ==> (x.key == y.key <==> SameParts(fmt, schema, x.values, y.values)))
            && (|wholeX| > 512 && |wholeY| > 512 ==> (x.key == y.key <==> SameParts(fmt, schema, x.values, y.values)))
  {
    var x, y := Prepare(fmt, schema, a).value, Prepare(fmt, schema, b).value;
    KeyIs(fmt, schema, a);
    KeyIs(fmt, schema, b);
    var wholeX, wholeY := WholeKey(fmt, schema, x.values), WholeKey(fmt, schema, y.values);
    WholeKeysTell(fmt, schema, x.values, y.values);
    hide Prepare, WholeKey, SameParts;
    if |wholeX| > 512 && |wholeY| > 512 {
      CutKeysTell(fmt, wholeX, wholeY);
    }
  }

  // ----- Saving -------------------------------------------------------------------------------------------

  /** The dataset of the request is active and in the version it expects. */
  predicate Reaches(s: Shelf, item: Item) {
    && item.dataset > 0 && item.dataset in s.datasets && s.datasets[item.dataset].active
    && (item.expectedVersion <= 0 || item.expectedVersion == s.datasets[item.dataset].schema.version)
  }

  /** What the request is prepared to: for magnet datasets with the key in capitals and without white space. */
  function Wanted(fmt: Formats, s: Shelf, item: Item): Option<Candidate>
    requires Reaches(s, item)
  {
    Prepare(fmt, s.datasets[item.dataset].schema, Canonical(s.datasets[item.dataset], item.values))
  }

  /** An earlier request of the dataset had this key. */
  predicate UsedFor(s: Shelf, item: Item, o: ObservationId) {
    && o in s.observations && s.observations[o].dataset == item.dataset && s.observations[o].idem == Some(item.idem)
    && s.observations[o].record in s.records
  }

  /** It was for this candidate. */
  predicate WasFor(s: Shelf, o: ObservationId, c: Candidate)
    requires o in s.observations && s.observations[o].record in s.records
  {
    s.observations[o].values == c.values && s.records[s.observations[o].record].key == c.key
  }

  /** The record of the dataset under this key. */
  predicate IsRecord(s: Shelf, dataset: int, key: string, r: RecordId) {
    r in s.records && s.records[r].dataset == dataset && s.records[r].key == key
  }

  /**
   What a request is answered: refused if it does not reach its dataset or its key is too long, invalid if its candidate
   cannot be prepared, a conflict if its key was used for another candidate, otherwise saved.
   */
  lemma AnswerIff(fmt: Formats, s: Shelf, item: Item)
    requires Sound(s)
    ensures var reply := SaveOne(fmt, s, item).1;
            var reaches := Reaches(s, item);
            var prepared := reaches && Wanted(fmt, s, item).Some?;
            && (reply.Rejected? <==> !reaches || (prepared && |item.idem| > 256))
            && (reply.Invalid? <==> reaches && !prepared)
            && (reply.Conflict? <==> prepared && |item.idem| <= 256 && exists o ::
                  UsedFor(s, item, o) && !WasFor(s, o, Wanted(fmt, s, item).value))
            && (!reply.Saved? ==> SaveOne(fmt, s, item).0 == s)
  {
    hide Prepare, Write;
    if Reaches(s, item) && Wanted(fmt, s, item).Some? && |item.idem| <= LONGEST_IDEM {
      ConflictIffKeyReused(fmt, s, item);
      assert forall o: ObservationId :: UsedFor(s, item, o) <==> Answers(s, item.dataset, item.idem, o);
    }
  }

  /** A request whose key was used is answered from the earlier observation and writes nothing. */
  lemma AnsweredEarlier(fmt: Formats, s: Shelf, item: Item, o: ObservationId)
    requires Sound(s) && SaveOne(fmt, s, item).1.Saved? && UsedFor(s, item, o)
    ensures SaveOne(fmt, s, item).0 == s && Reaches(s, item) && Wanted(fmt, s, item).Some?
    ensures SaveOne(fmt, s, item).1.result == Result(s.observations[o].record, o, s.observations[o].decision,
                                                     Wanted(fmt, s, item).value.key, [])
  {
    hide Prepare, Write;
    assert Trim("") == "";
    assert Answers(s, item.dataset, item.idem, o);
  }

  /**
   What the request writes: the record under the candidate's key is created with its values or gets them merged in; the
   decision says whether it was created, changed or left; the observation keeps the candidate, and a revision tells
   from what to what the named fields changed, if any did.
   */
  ghost predicate WritesRows(s: Shelf, item: Item, c: Candidate, n: Shelf, result: Result)
    requires Reaches(s, item)
  {
    var r, o, preserve := result.record, s.nextObservation, s.datasets[item.dataset].schema.preserve;
    var before := if r in s.records then s.records[r].values else map[];
    && IsRecord(n, item.dataset, c.key, r) && result.key == c.key && result.observation == o
    && n.records == s.records[r := n.records[r]]
    && (result.decision == Created <==> forall q :: !IsRecord(s, item.dataset, c.key, q))
    && (result.decision == Created ==> r !in s.records && n.records[r].values == c.values)
    && (result.decision != Created ==>
          && IsRecord(s, item.dataset, c.key, r)
          && (forall k: string :: FieldMerges(before, c.values, preserve, n.records[r].values, k))
          && (result.decision == Unchanged <==> forall k: string ::
                Lookup(n.records[r].values, k) == Lookup(before, k)))
    && (forall k: string :: k in result.changed <==>
          if result.decision == Created then k in c.values else Lookup(n.records[r].values, k) != Lookup(before, k))
    && n.observations == s.observations[o := Observation(r, item.dataset, c.values, result.decision,
                                                         if Trim(item.idem) == "" then None else Some(item.idem))]
    && (result.decision == Unchanged ==> n.revisions == s.revisions)
    && (result.decision != Unchanged ==>
          n.revisions == s.revisions + [Revision(r, o, before, n.records[r].values, result.changed)])
    && n.datasets == s.datasets
  }

  /** A saved request whose key is new writes these rows. */
  lemma SavedRowsAre(fmt: Formats, s: Shelf, item: Item)
    requires Sound(s) && SaveOne(fmt, s, item).1.Saved? && forall o :: !UsedFor(s, item, o)
    ensures Reaches(s, item) && Wanted(fmt, s, item).Some?
    ensures WritesRows(s, item, Wanted(fmt, s, item).value, SaveOne(fmt, s, item).0, SaveOne(fmt, s, item).1.result)
  {
    hide Prepare, Write, WritesRows;
    assert forall o: ObservationId :: UsedFor(s, item, o) <==> Answers(s, item.dataset, item.idem, o);
    WrittenRowsAre(s, item, Wanted(fmt, s, item).value);
  }

  lemma WrittenRowsAre(s: Shelf, item: Item, c: Candidate)
    requires Sound(s) && Reaches(s, item)
    ensures Addressed(s, item) && WritesRows(s, item, c, Write(s, item, c).0, Write(s, item, c).1)
  {
    var found := FindRecord(s, item.dataset, c.key, 0);
    assert forall q: RecordId :: IsRecord(s, item.dataset, c.key, q) <==> Holds(s, item.dataset, c.key, q);
    if found.Some? {
      MergesInto(s, item, c, found.value);
    } else {
      CreatesRecord(s, item, c);
    }
    hide WritesRows, Write;
  }

  lemma CreatesRecord(s: Shelf, item: Item, c: Candidate)
    requires Sound(s) && Reaches(s, item) && FindRecord(s, item.dataset, c.key, 0).None?
    requires forall q :: !IsRecord(s, item.dataset, c.key, q)
    ensures Addressed(s, item) && WritesRows(s, item, c, Write(s, item, c).0, Write(s, item, c).1)
  {
    hide FieldMerges, Merged, ChangedKeys, SoundObservations;
  }

  lemma MergesInto(s: Shelf, item: Item, c: Candidate, r: RecordId)
    requires Sound(s) && Reaches(s, item) && FindRecord(s, item.dataset, c.key, 0) == Some(r)
    requires IsRecord(s, item.dataset, c.key, r)
    ensures Addressed(s, item) && WritesRows(s, item, c, Write(s, item, c).0, Write(s, item, c).1)
  {
    var before, preserve := s.records[r].values, s.datasets[item.dataset].schema.preserve;
    forall k: string ensures FieldMerges(before, c.values, preserve, Merged(before, c.values, preserve), k) {
      MergeIsFieldwise(before, c.values, preserve, k);
    }
    MergeReportsExactly(before, c.values, preserve);
    hide FieldMerges, Merged, ChangedKeys, Sound;
  }

  // ----- One record a key ------------------------------------------------------------------------------------

  lemma SavedIsRecord(fmt: Formats, s: Shelf, item: Item)
    requires Sound(s) && SaveOne(fmt, s, item).1.Saved?
    ensures var (n, reply) := SaveOne(fmt, s, item);
            Sound(n) && IsRecord(n, item.dataset, reply.result.key, reply.result.record)
  {
    hide WritesRows;
    SaveIsSound(fmt, s, item);
    if o :| UsedFor(s, item, o) {
      AnsweredEarlier(fmt, s, item, o);
      NoConflict(fmt, s, item, o);
    } else {
      SavedRowsAre(fmt, s, item);
      RowsHaveRecord(s, item, Wanted(fmt, s, item).value, SaveOne(fmt, s, item).0, SaveOne(fmt, s, item).1.result);
    }
  }

  lemma RowsHaveRecord(s: Shelf, item: Item, c: Candidate, n: Shelf, result: Result)
    requires Reaches(s, item) && WritesRows(s, item, c, n, result)
    ensures IsRecord(n, item.dataset, result.key, result.record)
  {
  }

  lemma NoConflict(fmt: Formats, s: Shelf, item: Item, o: ObservationId)
    requires Sound(s) && SaveOne(fmt, s, item).1.Saved? && UsedFor(s, item, o)
    ensures Reaches(s, item) && Wanted(fmt, s, item).Some? && WasFor(s, o, Wanted(fmt, s, item).value)
  {
    AnswerIff(fmt, s, item);
    hide SaveOne, Prepare;
  }

  lemma {:induction false} RecordsKeepKeys(fmt: Formats, s: Shelf, ops: seq<Op>)
    requires Sound(s) && Logged(s)
    ensures Preserves(s, History(fmt, s, ops)) && Sound(History(fmt, s, ops)) && Logged(History(fmt, s, ops))
  {
    hide Sound, Logged, Apply;
    HistoryKeeps(fmt, s, ops);
    if ops != [] {
      RecordsKeepKeys(fmt, s, ops[..|ops| - 1]);
      OpPreserves(fmt, History(fmt, s, ops[..|ops| - 1]), ops[|ops| - 1]);
    }
  }

  lemma SameKeySameRecord(s: Shelf, dataset: int, k: string, l: string, q: RecordId, r: RecordId)
    requires Sound(s) && IsRecord(s, dataset, k, q) && IsRecord(s, dataset, l, r)
    ensures q == r <==> k == l
  {
    assert k == l ==> SameKey(s.records[q], s.records[r]);
  }

  /** Whatever happens in between, two saved requests to a dataset lead to one record exactly if their keys agree. */
  lemma SameRecordIffSameKey(fmt: Formats, s: Shelf, a: Item, ops: seq<Op>, b: Item)
    requires Sound(s) && Logged(s) && SaveOne(fmt, s, a).1.Saved? && a.dataset == b.dataset
    requires SaveOne(fmt, History(fmt, SaveOne(fmt, s, a).0, ops), b).1.Saved?
    ensures var first := SaveOne(fmt, s, a).1.result;
            var second := SaveOne(fmt, History(fmt, SaveOne(fmt, s, a).0, ops), b).1.result;
            first.record == second.record <==> first.key == second.key
  {
    hide SaveOne, Sound, Logged;
    var once, first := SaveOne(fmt, s, a).0, SaveOne(fmt, s, a).1.result;
    SavedIsRecord(fmt, s, a);
    SaveLogs(fmt, s, a);
    RecordsKeepKeys(fmt, once, ops);
    var later := History(fmt, once, ops);
    var n, second := SaveOne(fmt, later, b).0, SaveOne(fmt, later, b).1.result;
    SavedIsRecord(fmt, later, b);
    SavePreserves(fmt, later, b);
    assert IsRecord(later, a.dataset, first.key, first.record) && IsRecord(n, a.dataset, first.key, first.record);
    SameKeySameRecord(n, a.dataset, first.key, second.key, first.record, second.record);
  }

  /**
   So two saved requests to a dataset whose definition stays as it is lead to one record exactly if their candidates
   agree in the text of every key field, apart from a short key that happens to be the cut form of a longer one.
   */
  lemma SameRecordIffSameParts(fmt: Formats, s: Shelf, a: Item, ops: seq<Op>, b: Item)
    requires Sound(s) && Logged(s) && SaveOne(fmt, s, a).1.Saved? && a.dataset == b.dataset && TellsApart(fmt)
    requires SaveOne(fmt, History(fmt, SaveOne(fmt, s, a).0, ops), b).1.Saved?
    requires forall i :: 0 <= i < |ops| && ops[i].EditOp? ==> ops[i].dataset != a.dataset
    ensures var later := History(fmt, SaveOne(fmt, s, a).0, ops);
            && Reaches(s, a) && Reaches(later, b) && Wanted(fmt, s, a).Some? && Wanted(fmt, later, b).Some?
            && var x, y, schema := Wanted(fmt, s, a).value, Wanted(fmt, later, b).value, s.datasets[a.dataset].schema;
            && schema.uniqueKey != []
            && var wholeX, wholeY := WholeKey(fmt, schema, x.values), WholeKey(fmt, schema, y.values);
            SaveOne(fmt, s, a).1.result.record == SaveOne(fmt, later, b).1.result.record <==>
              || SameParts(fmt, schema, x.values, y.values)
              || LooksCut(fmt, wholeX, wholeY) || LooksCut(fmt, wholeY, wholeX)
  {
    hide SaveOne, Sound, Logged, Prepare, WholeKey, SameParts, TellsApart;
    var once := SaveOne(fmt, s, a).0;
    SameRecordIffSameKey(fmt, s, a, ops, b);
    SavedIsRecord(fmt, s, a);
    SaveLogs(fmt, s, a);
    SaveIsSound(fmt, s, a);
    RecordsKeepKeys(fmt, once, ops);
    SavedKeyIs(fmt, s, a);
    SavedKeyIs(fmt, History(fmt, once, ops), b);
    DatasetStays(fmt, once, a.dataset, ops);
    var d := s.datasets[a.dataset];
    KeysTellCandidates(fmt, d.schema, Canonical(d, a.values), Canonical(d, b.values));
  }

  lemma SavedKeyIs(fmt: Formats, s: Shelf, item: Item)
    requires Sound(s) && SaveOne(fmt, s, item).1.Saved?
    ensures Reaches(s, item) && Wanted(fmt, s, item).Some?
    ensures SaveOne(fmt, s, item).1.result.key == Wanted(fmt, s, item).value.key
  {
    hide Prepare, Write, WritesRows;
    if o :| UsedFor(s, item, o) {
      AnsweredEarlier(fmt, s, item, o);
    } else {
      SavedRowsAre(fmt, s, item);
      RowsHaveKey(s, item, Wanted(fmt, s, item).value, SaveOne(fmt, s, item).0, SaveOne(fmt, s, item).1.result);
    }
  }

  lemma RowsHaveKey(s: Shelf, item: Item, c: Candidate, n: Shelf, result: Result)
    requires Reaches(s, item) && WritesRows(s, item, c, n, result)
    ensures result.key == c.key
  {
  }

  // ----- Batches ----------------------------------------------------------------------------------------------

  /** Saved one after the other, each on what the one before left. */
  ghost predicate SavedInTurn(fmt: Formats, s: Shelf, items: seq<Item>, n: Shelf, results: seq<Result>)
    decreases |items|
  {
    if items == [] then n == s && results == []
    else
      && results != [] && SaveOne(fmt, s, items[0]).1 == Saved(results[0])
      && SavedInTurn(fmt, SaveOne(fmt, s, items[0]).0, items[1..], n, results[1..])
  }

  lemma {:induction false} TurnsAddLast(fmt: Formats, s: Shelf, items: seq<Item>, n: Shelf, results: seq<Result>,
                                        last: Item)
    requires SavedInTurn(fmt, s, items, n, results) && SaveOne(fmt, n, last).1.Saved?
    ensures var (m, reply) := SaveOne(fmt, n, last); SavedInTurn(fmt, s, items + [last], m, results + [reply.result])
    decreases |items|
  {
    hide SaveOne;
    var reply := SaveOne(fmt, n, last).1;
    if items != [] {
      TurnsAddLast(fmt, SaveOne(fmt, s, items[0]).0, items[1..], n, results[1..], last);
      assert (items + [last])[1..] == items[1..] + [last];
      assert (results + [reply.result])[1..] == results[1..] + [reply.result];
    }
  }

  lemma {:induction false} EachInTurn(fmt: Formats, s: Shelf, items: seq<Item>)
    ensures SaveEach(fmt, s, items).1.Some? ==>
              SavedInTurn(fmt, s, items, SaveEach(fmt, s, items).0, SaveEach(fmt, s, items).1.value)
  {
    hide SaveOne;
    if items != [] {
      var front := items[..|items| - 1];
      EachInTurn(fmt, s, front);
      if SaveEach(fmt, s, items).1.Some? {
        TurnsAddLast(fmt, s, front, SaveEach(fmt, s, front).0, SaveEach(fmt, s, front).1.value, items[|items| - 1]);
        assert front + [items[|items| - 1]] == items;
      }
    }
  }

  lemma {:induction false} LastTurn(fmt: Formats, s: Shelf, items: seq<Item>, n: Shelf, results: seq<Result>)
    returns (mid: Shelf)
    requires items != [] && SavedInTurn(fmt, s, items, n, results)
    ensures |results| == |items|
    ensures SavedInTurn(fmt, s, items[..|items| - 1], mid, results[..|items| - 1])
    ensures SaveOne(fmt, mid, items[|items| - 1]) == (n, Saved(results[|items| - 1]))
    decreases |items|
  {
    hide SaveOne;
    if |items| == 1 {
      mid := s;
    } else {
      mid := LastTurn(fmt, SaveOne(fmt, s, items[0]).0, items[1..], n, results[1..]);
      assert items[1..][..|items| - 2] == items[..|items| - 1][1..];
      assert results[1..][..|items| - 2] == results[..|items| - 1][1..];
    }
  }

  lemma {:induction false} TurnsAreEach(fmt: Formats, s: Shelf, items: seq<Item>, n: Shelf, results: seq<Result>)
    requires SavedInTurn(fmt, s, items, n, results)
    ensures SaveEach(fmt, s, items) == (n, Some(results))
    decreases |items|
  {
    hide SaveOne, SavedInTurn;
    if items == [] {
      NoTurn(fmt, s, n, results);
    } else {
      var mid := LastTurn(fmt, s, items, n, results);
      TurnsAreEach(fmt, s, items[..|items| - 1], mid, results[..|items| - 1]);
      assert results[..|items| - 1] + [results[|items| - 1]] == results;
    }
  }

  lemma NoTurn(fmt: Formats, s: Shelf, n: Shelf, results: seq<Result>)
    requires SavedInTurn(fmt, s, [], n, results)
    ensures n == s && results == []
  {
  }

  /**
   A batch is saved exactly if it has 1 to 1000 candidates, all of one dataset, that can be saved in turn; then it is
   what saving them in turn leaves and answers, otherwise everything stays as it was.
   */
  lemma BatchIff(fmt: Formats, s: Shelf, items: seq<Item>)
    ensures var (n, results) := SaveBatch(fmt, s, items);
            && (results.Some? <==>
                  && 1 <= |items| <= 1000 && (forall i :: 0 <= i < |items| ==> items[i].dataset == items[0].dataset)
                  && exists m, rs :: SavedInTurn(fmt, s, items, m, rs))
            && (results.Some? ==> SavedInTurn(fmt, s, items, n, results.value))
            && (results.None? ==> n == s)
  {
    hide SaveOne, SavedInTurn;
    EachInTurn(fmt, s, items);
    if m, rs :| SavedInTurn(fmt, s, items, m, rs) {
      TurnsAreEach(fmt, s, items, m, rs);
    }
  }
}
