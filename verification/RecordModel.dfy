/**
 What a record is: a candidate is checked and normalised against its dataset's schema, gets a canonical key
 and is merged into what is already known.
 */
module RecordModel {
  import opened Common
  import opened Json
  import opened StringOrder

  datatype Kind =
    StringKind | UrlKind | IntegerKind | NumberKind | BooleanKind | DateTimeKind | JsonKind
    | UnsupportedKind(name: string)

  datatype Field = Field(key: string, kind: Kind, required: bool, multiple: bool)

  datatype Schema = Schema(version: int, uniqueKey: seq<string>, preserve: bool, fields: seq<Field>)

  datatype Candidate = Candidate(key: string, values: Values)

  /** Text conventions that the model takes as given: address and time syntax, printing, encoding and hashing. */
  datatype Formats = Formats(
    isUrl: string -> bool,
    isDateTime: string -> bool,
    show: Json -> string,
    encode: seq<string> -> string,
    digest: string -> string)

  const LONGEST_KEY := 512
  const KEPT_OF_LONG_KEY := 400
  const MAGNET_PREFIX := "magnet:?"

  // ----- Checking and normalising -----------------------------------------------------------

  /** The declaration of a field; the last one counts when a key is declared twice. */
  function FieldOf(fields: seq<Field>, name: string): (f: Option<Field>)
    ensures f.Some? <==> exists i :: 0 <= i < |fields| && fields[i].key == name
    ensures f.Some? ==> f.value.key == name
  {
    if fields == [] then None
    else if fields[|fields| - 1].key == name then Some(fields[|fields| - 1])
    else FieldOf(fields[..|fields| - 1], name)
  }

  function Normalize(fmt: Formats, kind: Kind, v: Json): Option<Json> {
    match kind
    case StringKind => if v.Str? then Some(Str(Trim(v.text))) else None
    case UrlKind =>
      if v.Str? && (fmt.isUrl(Trim(v.text)) || MAGNET_PREFIX <= Trim(v.text)) then Some(Str(Trim(v.text))) else None
    case IntegerKind => if v.Num? && v.number == v.number.Floor as real then Some(v) else None
    case NumberKind => if v.Num? then Some(v) else None
    case BooleanKind => if v.Bool? then Some(v) else None
    case DateTimeKind => if v.Str? && fmt.isDateTime(v.text) then Some(v) else None
    case JsonKind => Some(v)
    case UnsupportedKind(_) => None
  }

  function NormalizeItems(fmt: Formats, kind: Kind, items: seq<Json>): Option<seq<Json>> {
    if items == [] then Some([])
    else
      var front, last := NormalizeItems(fmt, kind, items[..|items| - 1]), Normalize(fmt, kind, items[|items| - 1]);
      if front.Some? && last.Some? then Some(front.value + [last.value]) else None
  }

  /** One entry of a candidate: null stays null, a multiple field is normalised item by item. */
  function NormalizeEntry(fmt: Formats, f: Field, v: Json): Option<Json> {
    if v.Null? then Some(Null)
    else if f.multiple then
      if !v.Arr? then None
      else match NormalizeItems(fmt, f.kind, v.items)
        case None => None
        case Some(items) => Some(Arr(items))
    else Normalize(fmt, f.kind, v)
  }

  predicate EntryAccepted(fmt: Formats, schema: Schema, raw: Values, name: string)
    requires name in raw
  {
    FieldOf(schema.fields, name).Some? && NormalizeEntry(fmt, FieldOf(schema.fields, name).value, raw[name]).Some?
  }

  predicate EntriesAccepted(fmt: Formats, schema: Schema, raw: Values) {
    forall name :: name in raw ==> EntryAccepted(fmt, schema, raw, name)
  }

  function NormalizeValues(fmt: Formats, schema: Schema, raw: Values): Values
    requires EntriesAccepted(fmt, schema, raw)
  {
    map name | name in raw :: NormalizeEntry(fmt, FieldOf(schema.fields, name).value, raw[name]).value
  }

  predicate RequiredFilled(schema: Schema, values: Values) {
    forall i :: 0 <= i < |schema.fields| && schema.fields[i].required ==> !Empty(Lookup(values, schema.fields[i].key))
  }

  predicate KeyField(schema: Schema, name: string) {
    FieldOf(schema.fields, name).Some? && !FieldOf(schema.fields, name).value.multiple
  }

  predicate KeyFieldFilled(schema: Schema, values: Values, name: string) {
    KeyField(schema, name) && !Empty(Lookup(values, name))
  }

  predicate KeyFilled(schema: Schema, values: Values) {
    forall i :: 0 <= i < |schema.uniqueKey| ==> KeyFieldFilled(schema, values, schema.uniqueKey[i])
  }

  function KeyText(fmt: Formats, v: Json): string {
    if v.Str? then v.text else fmt.show(v)
  }

  function KeyParts(fmt: Formats, names: seq<string>, values: Values): seq<string> {
    if names == [] then []
        else KeyParts(fmt, names[..|names| - 1], values) + [KeyText(fmt, Lookup(values, names[|names| - 1]))]
  }

  function CutKey(fmt: Formats, key: string): string {
    if |key| > LONGEST_KEY then key[..KEPT_OF_LONG_KEY] + "-" + fmt.digest(key) else key
  }

  function CanonicalKey(fmt: Formats, schema: Schema, values: Values): string {
    var parts := KeyParts(fmt, schema.uniqueKey, values);
    CutKey(fmt, if |parts| == 1 then parts[0] else fmt.encode(parts))
  }

  predicate Acceptable(fmt: Formats, schema: Schema, raw: Values) {
    && schema.uniqueKey != [] && EntriesAccepted(fmt, schema, raw)
    && RequiredFilled(schema, NormalizeValues(fmt, schema, raw)) && KeyFilled(schema, NormalizeValues(fmt, schema, raw))
  }

  function Prepare(fmt: Formats, schema: Schema, raw: Values): Option<Candidate> {
    if !Acceptable(fmt, schema, raw) then None
    else
      var values := NormalizeValues(fmt, schema, raw);
      Some(Candidate(CanonicalKey(fmt, schema, values), values))
  }

  /** Why a candidate is not prepared. */
  datatype Complaint =
    | NoUniqueKey
    | BadEntry(name: string)
    | RequiredEmpty(field: nat)
    | NotAKeyField(part: nat)
    | KeyFieldEmpty(part: nat)

  /** The complaint is the first one in the order of the checks; of several bad entries any may be named. */
  ghost predicate Justified(fmt: Formats, schema: Schema, raw: Values, why: Complaint) {
    match why
    case NoUniqueKey => schema.uniqueKey == []
    case BadEntry(name) => schema.uniqueKey != [] && name in raw && !EntryAccepted(fmt, schema, raw, name)
    case RequiredEmpty(i) =>
      && schema.uniqueKey != [] && EntriesAccepted(fmt, schema, raw)
      && FirstRequiredEmpty(schema, NormalizeValues(fmt, schema, raw), i)
    case NotAKeyField(i) =>
      && EntriesAccepted(fmt, schema, raw) && FirstKeyGap(schema, NormalizeValues(fmt, schema, raw), i)
      && !KeyField(schema, schema.uniqueKey[i])
    case KeyFieldEmpty(i) =>
      && EntriesAccepted(fmt, schema, raw) && FirstKeyGap(schema, NormalizeValues(fmt, schema, raw), i)
      && KeyField(schema, schema.uniqueKey[i])
  }

  predicate FirstRequiredEmpty(schema: Schema, values: Values, i: nat) {
    && i < |schema.fields| && schema.fields[i].required && Empty(Lookup(values, schema.fields[i].key))
    && forall j :: 0 <= j < i && schema.fields[j].required ==> !Empty(Lookup(values, schema.fields[j].key))
  }

  predicate FirstKeyGap(schema: Schema, values: Values, i: nat) {
    && RequiredFilled(schema, values) && i < |schema.uniqueKey| && !KeyFieldFilled(schema, values, schema.uniqueKey[i])
    && forall j :: 0 <= j < i ==> KeyFieldFilled(schema, values, schema.uniqueKey[j])
  }

  /** Entries are checked in no particular order, then the required fields, then the key. */
  method PrepareCandidate(fmt: Formats, schema: Schema, raw: Values)
    returns (r: Option<Candidate>, why: Option<Complaint>)
    ensures r == Prepare(fmt, schema, raw)
    ensures r.None? <==> why.Some?
    ensures why.Some? ==> Justified(fmt, schema, raw, why.value)
  {
    if schema.uniqueKey == [] {
      return None, Some(NoUniqueKey);
    }
    var normalized, bad := NormalizeAll(fmt, schema, raw);
    if normalized.None? {
      return None, Some(BadEntry(bad));
    }
    hide EntriesAccepted, NormalizeValues;
    var out := normalized.value;
    for i := 0 to |schema.fields|
      invariant forall j :: 0 <= j < i && schema.fields[j].required ==> !Empty(Lookup(out, schema.fields[j].key))
    {
      if schema.fields[i].required && Empty(Lookup(out, schema.fields[i].key)) {
        return None, Some(RequiredEmpty(i));
      }
    }
    var gap: nat;
    r, gap := PrepareKey(fmt, schema, out);
    why := if r.Some? then None else if KeyField(schema, schema.uniqueKey[gap]) then Some(KeyFieldEmpty(gap))
        else Some(NotAKeyField(gap));
  }

  method NormalizeAll(fmt: Formats, schema: Schema, raw: Values) returns (r: Option<Values>, bad: string)
    ensures r.Some? <==> EntriesAccepted(fmt, schema, raw)
    ensures r.Some? ==> r.value == NormalizeValues(fmt, schema, raw)
    ensures r.None? ==> bad in raw && !EntryAccepted(fmt, schema, raw, bad)
  {
    hide NormalizeEntry;
    var out: Values := map[];
    var rest := raw.Keys;
    bad := "";
    while rest != {}
      invariant rest <= raw.Keys && out.Keys == raw.Keys - rest
      invariant forall name :: name in out ==> EntryAccepted(fmt, schema, raw, name)
      invariant forall name ::
                  name in out ==> out[name] == NormalizeEntry(fmt, FieldOf(schema.fields, name).value, raw[name]).value
      decreases |rest|
    {
      var name :| name in rest;
      var f := FieldOf(schema.fields, name);
      if f.None? {
        return None, name;
      }
      var v := NormalizeEntry(fmt, f.value, raw[name]);
      if v.None? {
        return None, name;
      }
      out := out[name := v.value];
      rest := rest - {name};
    }
    r := Some(out);
  }

  method PrepareKey(fmt: Formats, schema: Schema, out: Values) returns (r: Option<Candidate>, gap: nat)
    requires schema.uniqueKey != []
    ensures r == if KeyFilled(schema, out) then Some(Candidate(CanonicalKey(fmt, schema, out), out)) else None
    ensures r.None? ==> gap < |schema.uniqueKey| && !KeyFieldFilled(schema, out, schema.uniqueKey[gap])
    ensures r.None? ==> forall j :: 0 <= j < gap ==> KeyFieldFilled(schema, out, schema.uniqueKey[j])
  {
    gap := 0;
    var parts: seq<string> := [];
    for i := 0 to |schema.uniqueKey|
      invariant parts == KeyParts(fmt, schema.uniqueKey[..i], out)
      invariant forall j :: 0 <= j < i ==> KeyFieldFilled(schema, out, schema.uniqueKey[j])
    {
      if !KeyFieldFilled(schema, out, schema.uniqueKey[i]) {
        return None, i;
      }
      parts := parts + [KeyText(fmt, Lookup(out, schema.uniqueKey[i]))];
      assert schema.uniqueKey[..i + 1][..i] == schema.uniqueKey[..i];
    }
    assert schema.uniqueKey[..|schema.uniqueKey|] == schema.uniqueKey;
    var key := if |parts| == 1 then parts[0] else fmt.encode(parts);
    if |key| > LONGEST_KEY {
      key := key[..KEPT_OF_LONG_KEY] + "-" + fmt.digest(key);
    }
    r := Some(Candidate(key, out));
  }

  lemma NormalizeTwice(fmt: Formats, kind: Kind, v: Json)
    requires Normalize(fmt, kind, v).Some?
    ensures Normalize(fmt, kind, Normalize(fmt, kind, v).value) == Normalize(fmt, kind, v)
  {
    if v.Str? {
      TrimTrims(v.text);
    }
  }

  lemma {:induction false} NormalizeItemsTwice(fmt: Formats, kind: Kind, items: seq<Json>)
    requires NormalizeItems(fmt, kind, items).Some?
    ensures |NormalizeItems(fmt, kind, items).value| == |items|
    ensures NormalizeItems(fmt, kind, NormalizeItems(fmt, kind, items).value) == NormalizeItems(fmt, kind, items)
  {
    if items != [] {
      var front := items[..|items| - 1];
      NormalizeItemsTwice(fmt, kind, front);
      NormalizeTwice(fmt, kind, items[|items| - 1]);
      var out := NormalizeItems(fmt, kind, items).value;
      assert out[..|out| - 1] == NormalizeItems(fmt, kind, front).value;
    }
  }

  lemma NormalizeEntryTwice(fmt: Formats, f: Field, v: Json)
    requires NormalizeEntry(fmt, f, v).Some?
    ensures NormalizeEntry(fmt, f, NormalizeEntry(fmt, f, v).value) == NormalizeEntry(fmt, f, v)
  {
    if !v.Null? && f.multiple {
      NormalizeItemsTwice(fmt, f.kind, v.items);
    } else if !v.Null? {
      NormalizeTwice(fmt, f.kind, v);
    }
  }

  /** Preparing what has been prepared changes neither values nor key. */
  lemma PrepareIsIdempotent(fmt: Formats, schema: Schema, raw: Values)
    requires Prepare(fmt, schema, raw).Some?
    ensures Prepare(fmt, schema, Prepare(fmt, schema, raw).value.values) == Prepare(fmt, schema, raw)
  {
    var values := NormalizeValues(fmt, schema, raw);
    forall name | name in values
      ensures EntryAccepted(fmt, schema, values, name)
      ensures NormalizeEntry(fmt, FieldOf(schema.fields, name).value, values[name]).value == values[name]
    {
      assert EntryAccepted(fmt, schema, raw, name);
      NormalizeEntryTwice(fmt, FieldOf(schema.fields, name).value, raw[name]);
    }
    assert NormalizeValues(fmt, schema, values) == values;
  }

  // ----- Merging -----------------------------------------------------------------------------

  /** Each element once, in the order of first appearance. */
  function Distinct(items: seq<Json>): seq<Json> {
    if items == [] then []
    else
      var front := Distinct(items[..|items| - 1]);
      if items[|items| - 1] in front then front else front + [items[|items| - 1]]
  }

  predicate NoRepeats(items: seq<Json>) {
    forall i, j :: 0 <= i < j < |items| ==> items[i] != items[j]
  }

  /** An empty value does not overwrite under the preserving policy. */
  predicate Ignored(preserve: bool, v: Json) {
    preserve && Empty(v)
  }

  /** What is written for `v` over `current`: lists are united under the preserving policy. */
  function Incoming(preserve: bool, current: Json, v: Json): Json {
    if preserve && current.Arr? && v.Arr? then Arr(Distinct(current.items + v.items)) else v
  }

  predicate Overwrites(preserve: bool, current: Json, v: Json) {
    !Ignored(preserve, v) && Incoming(preserve, current, v) != current
  }

  function ChangedKeys(before: Values, incoming: Values, preserve: bool): set<string> {
    set k | k in incoming && Overwrites(preserve, Lookup(before, k), incoming[k])
  }

  function Merged(before: Values, incoming: Values, preserve: bool): Values {
    var changed := ChangedKeys(before, incoming, preserve);
    map k | k in before.Keys + changed ::
          if k in changed then Incoming(preserve, Lookup(before, k), incoming[k]) else before[k]
  }

  /** Unites two lists, keeping the first of equal elements. */
  method Unite(existing: seq<Json>, incoming: seq<Json>) returns (union: seq<Json>)
    ensures union == Distinct(existing + incoming)
  {
    var all := existing + incoming;
    var seen: set<Json> := {};
    union := [];
    for i := 0 to |all|
      invariant union == Distinct(all[..i])
      invariant forall x :: x in seen <==> x in union
    {
      assert all[..i + 1][..i] == all[..i];
      if all[i] !in seen {
        seen := seen + {all[i]};
        union := union + [all[i]];
      }
    }
    assert all[..|all|] == all;
  }

  /** Merges one value into its place. */
  method MergeField(out: Values, k: string, value: Json, preserve: bool) returns (merged: Values, wrote: bool)
    ensures wrote == Overwrites(preserve, Lookup(out, k), value)
    ensures merged == if wrote then out[k := Incoming(preserve, Lookup(out, k), value)] else out
  {
    var v := value;
    if preserve && Empty(v) {
      return out, false;
    }
    if preserve && v.Arr? && k in out && out[k].Arr? {
      var union := Unite(out[k].items, v.items);
      v := Arr(union);
    }
    wrote := Lookup(out, k) != v;
    merged := if wrote then out[k := v] else out;
  }

  /** The part of the incoming values with these keys. */
  function Only(incoming: Values, keys: set<string>): Values {
    map k | k in incoming && k in keys :: incoming[k]
  }

  lemma MergeOneMore(before: Values, incoming: Values, done: set<string>, k: string, preserve: bool)
    requires k in incoming && k !in done && done <= incoming.Keys
    ensures var out := Merged(before, Only(incoming, done), preserve);
            var written := ChangedKeys(before, Only(incoming, done), preserve);
            if Overwrites(preserve, Lookup(out, k), incoming[k])
            then Merged(before, Only(incoming, done + {k}), preserve)
                 == out[k := Incoming(preserve, Lookup(out, k), incoming[k])]
                 && ChangedKeys(before, Only(incoming, done + {k}), preserve) == written + {k}
            else Merged(before, Only(incoming, done + {k}), preserve) == out
                 && ChangedKeys(before, Only(incoming, done + {k}), preserve) == written
  {
    hide Overwrites, Incoming;
    var written := ChangedKeys(before, Only(incoming, done), preserve);
    var more := ChangedKeys(before, Only(incoming, done + {k}), preserve);
    assert Lookup(Merged(before, Only(incoming, done), preserve), k) == Lookup(before, k);
    if Overwrites(preserve, Lookup(before, k), incoming[k]) {
      assert more == written + {k};
    } else {
      assert more == written;
    }
  }

  lemma MergeEnds(before: Values, incoming: Values, preserve: bool)
    ensures Merged(before, Only(incoming, {}), preserve) == before
    ensures ChangedKeys(before, Only(incoming, {}), preserve) == {}
    ensures Only(incoming, incoming.Keys) == incoming
  {
  }

  /** Merges the new values one by one, in no particular order, and reports the written keys in ascending order. */
  method Merge(before: Values, incoming: Values, preserve: bool) returns (out: Values, changed: seq<string>)
    ensures out == Merged(before, incoming, preserve)
    ensures changed == Sorted(ChangedKeys(before, incoming, preserve))
    ensures forall k: string :: FieldMerges(before, incoming, preserve, out, k)
    ensures forall k: string :: k in changed <==> Lookup(out, k) != Lookup(before, k)
  {
    hide Merged, ChangedKeys, Only, Overwrites, Incoming;
    out := before;
    var written: set<string> := {};
    var rest := incoming.Keys;
    MergeEnds(before, incoming, preserve);
    assert incoming.Keys - rest == {};
    while rest != {}
      invariant rest <= incoming.Keys
      invariant out == Merged(before, Only(incoming, incoming.Keys - rest), preserve)
      invariant written == ChangedKeys(before, Only(incoming, incoming.Keys - rest), preserve)
      decreases |rest|
    {
      var k :| k in rest;
      MergeOneMore(before, incoming, incoming.Keys - rest, k, preserve);
      assert incoming.Keys - (rest - {k}) == incoming.Keys - rest + {k};
      rest := rest - {k};
      var merged, wrote := MergeField(out, k, incoming[k], preserve);
      out := merged;
      if wrote {
        written := written + {k};
      }
    }
    assert incoming.Keys - rest == incoming.Keys;
    changed := SortKeys(written);
    MergeReportsExactly(before, incoming, preserve);
    forall k: string ensures FieldMerges(before, incoming, preserve, out, k) {
      MergeIsFieldwise(before, incoming, preserve, k);
    }
    hide FieldMerges;
  }

  lemma {:induction false} DistinctKeeps(items: seq<Json>)
    ensures forall x :: x in Distinct(items) <==> x in items
    ensures NoRepeats(Distinct(items))
  {
    if items != [] {
      DistinctKeeps(items[..|items| - 1]);
      assert items == items[..|items| - 1] + [items[|items| - 1]];
    }
  }

  lemma {:induction false} DistinctOfDistinct(items: seq<Json>)
    requires NoRepeats(items)
    ensures Distinct(items) == items
  {
    if items != [] {
      DistinctOfDistinct(items[..|items| - 1]);
      DistinctKeeps(items[..|items| - 1]);
      assert items[|items| - 1] !in items[..|items| - 1];
    }
  }

  /** Distinct elements of a list that repeats itself are those of its first part. */
  lemma {:induction false} NothingNew(first: seq<Json>, more: seq<Json>)
    requires forall x :: x in more ==> x in first
    ensures Distinct(first + more) == Distinct(first)
    decreases |more|
  {
    if more == [] {
      assert first + more == first;
    } else {
      var front, last := more[..|more| - 1], more[|more| - 1];
      assert last in more && forall x :: x in front ==> x in more;
      NothingNew(first, front);
      DistinctKeeps(first);
      assert (first + more)[..|first + more| - 1] == first + front;
    }
  }

  /** Existing elements come first and keep their order. */
  lemma {:induction false} DistinctExtends(first: seq<Json>, more: seq<Json>)
    ensures Distinct(first) <= Distinct(first + more)
    decreases |more|
  {
    if more == [] {
      assert first + more == first;
    } else {
      DistinctExtends(first, more[..|more| - 1]);
      assert (first + more)[..|first + more| - 1] == first + more[..|more| - 1];
    }
  }

  /** The reported keys are exactly those whose value differs, a missing value reading as null. */
  lemma MergeReportsExactly(before: Values, incoming: Values, preserve: bool)
    ensures forall k: string ::
              k in ChangedKeys(before, incoming, preserve) <==>
                Lookup(Merged(before, incoming, preserve), k) != Lookup(before, k)
    ensures Merged(before, incoming, preserve) == before <==> ChangedKeys(before, incoming, preserve) == {}
  {
    var changed, merged := ChangedKeys(before, incoming, preserve), Merged(before, incoming, preserve);
    if changed == {} {
      assert merged.Keys == before.Keys;
    } else {
      var k :| k in changed;
      assert Lookup(merged, k) != Lookup(before, k);
    }
  }

  /**
   Under the preserving policy no value gets lost: none becomes empty, and a list that meets a list keeps its
   elements first.
   */
  lemma PreservingKeeps(before: Values, incoming: Values, k: string)
    ensures var merged := Merged(before, incoming, true);
            && (k in before ==> k in merged)
            && (!Empty(Lookup(before, k)) ==> !Empty(Lookup(merged, k)))
            && (Lookup(before, k).Arr? && (k !in incoming || incoming[k].Arr? || Empty(incoming[k])) ==>
                  Lookup(merged, k).Arr? && Distinct(Lookup(before, k).items) <= Distinct(Lookup(merged, k).items)
                  && forall x :: x in Lookup(before, k).items ==> x in Lookup(merged, k).items)
  {
    var current, merged := Lookup(before, k), Merged(before, incoming, true);
    if k in ChangedKeys(before, incoming, true) && current.Arr? && incoming[k].Arr? {
      var all := current.items + incoming[k].items;
      DistinctKeeps(all);
      DistinctOfDistinct(Distinct(all));
      DistinctExtends(current.items, incoming[k].items);
      assert incoming[k].items[0] in all;
    }
  }

  // ----- What a merge leaves, field by field -----------------------------------------------------

  /** The first place of a value in a list, its length if there is none. */
  function Place(items: seq<Json>, x: Json): (i: nat)
    ensures i <= |items| && (i < |items| ==> items[i] == x) && forall j :: 0 <= j < i ==> items[j] != x
  {
    if items == [] || items[0] == x then 0 else Place(items[1..], x) + 1
  }

  /** Exactly the elements of both lists, each once, those of the first list first and in order of appearance. */
  ghost predicate IsUnion(first: seq<Json>, more: seq<Json>, union: seq<Json>) {
    && NoRepeats(union) && (forall x :: x in union <==> x in first || x in more)
    && forall i, j :: 0 <= i < j < |union| ==> Place(first + more, union[i]) < Place(first + more, union[j])
  }

  predicate SameField(before: Values, out: Values, k: string) {
    (k in out <==> k in before) && Lookup(out, k) == Lookup(before, k)
  }

  /**
   What becomes of a field: it stays unless it gets a value, and under the preserving policy an empty one is none; two
   lists are united under that policy; in every other case the new value is stored, where null needs no place.
   */
  ghost predicate FieldMerges(before: Values, incoming: Values, preserve: bool, out: Values, k: string) {
    if k !in incoming || (preserve && Empty(incoming[k])) then SameField(before, out, k)
    else if preserve && Lookup(before, k).Arr? && incoming[k].Arr? then
      k in out && out[k].Arr? && IsUnion(before[k].items, incoming[k].items, out[k].items)
    else Lookup(out, k) == incoming[k] && (k in out <==> k in before || !incoming[k].Null?)
  }

  lemma {:induction false} DistinctIsUnion(items: seq<Json>)
    ensures forall i, j :: 0 <= i < j < |Distinct(items)| ==>
              Place(items, Distinct(items)[i]) < Place(items, Distinct(items)[j])
  {
    if items != [] {
      var front, last := items[..|items| - 1], items[|items| - 1];
      DistinctIsUnion(front);
      DistinctKeeps(front);
      forall x | x in front ensures Place(items, x) == Place(front, x) {
        PlaceStays(front, [last], x);
        assert items == front + [last];
      }
      if last !in front {
        assert Place(items, last) == |front|;
      }
    }
  }

  lemma PlaceStays(first: seq<Json>, more: seq<Json>, x: Json)
    requires x in first
    ensures Place(first + more, x) == Place(first, x) < |first|
  {
    var p, i := Place(first + more, x), Place(first, x);
    var j :| 0 <= j < |first| && first[j] == x;
    assert (first + more)[i] == x;
    assert p < |first| ==> first[p] == (first + more)[p];
  }

  /** Every field of every merge. */
  lemma MergeIsFieldwise(before: Values, incoming: Values, preserve: bool, k: string)
    ensures FieldMerges(before, incoming, preserve, Merged(before, incoming, preserve), k)
  {
    if k in incoming && preserve && Lookup(before, k).Arr? && incoming[k].Arr? {
      var all := before[k].items + incoming[k].items;
      DistinctKeeps(all);
      DistinctIsUnion(all);
    }
  }

  // ----- Merging the same input again ---------------------------------------------------------

  /** One value merged into one position. */
  function Settle(preserve: bool, current: Json, v: Json): Json {
    if Overwrites(preserve, current, v) then Incoming(preserve, current, v) else current
  }

  lemma MergedAt(before: Values, incoming: Values, preserve: bool, k: string)
    requires k in incoming
    ensures Lookup(Merged(before, incoming, preserve), k) == Settle(preserve, Lookup(before, k), incoming[k])
  {
  }

  /** A list with repeated elements that is stored as it came; only a second merge removes the repetitions. */
  predicate StoresRepeats(preserve: bool, current: Json, v: Json) {
    preserve && v.Arr? && !current.Arr? && !NoRepeats(v.items)
  }

  lemma SettleAgain(preserve: bool, current: Json, v: Json)
    ensures var once := Settle(preserve, current, v);
            && (Settle(preserve, once, v) == once <==> !StoresRepeats(preserve, current, v))
            && Settle(preserve, Settle(preserve, once, v), v) == Settle(preserve, once, v)
  {
    hide Distinct;
    if preserve && v.Arr? && v.items != [] {
      var once := Settle(preserve, current, v);
      if current.Arr? {
        UnionAgain(current.items, v.items);
      } else {
        UnionAgain([], v.items);
        assert [] + v.items == v.items;
        assert once == v;
        SelfUnion(v.items);
      }
    }
  }

  lemma UnionAgain(existing: seq<Json>, incoming: seq<Json>)
    ensures Distinct(Distinct(existing + incoming) + incoming) == Distinct(existing + incoming)
  {
    var union := Distinct(existing + incoming);
    DistinctKeeps(existing + incoming);
    NothingNew(union, incoming);
    DistinctOfDistinct(union);
  }

  lemma SelfUnion(items: seq<Json>)
    ensures Distinct(items + items) == items <==> NoRepeats(items)
    ensures Distinct(items + items) == Distinct(items)
  {
    NothingNew(items, items);
    DistinctKeeps(items);
    if NoRepeats(items) {
      DistinctOfDistinct(items);
    }
  }

  lemma MergedAgainAt(before: Values, incoming: Values, preserve: bool, k: string)
    requires k in incoming
    ensures var once := Merged(before, incoming, preserve);
            k in ChangedKeys(once, incoming, preserve) <==> StoresRepeats(preserve, Lookup(before, k), incoming[k])
    ensures var twice := Merged(Merged(before, incoming, preserve), incoming, preserve);
            k !in ChangedKeys(twice, incoming, preserve)
  {
    var once := Merged(before, incoming, preserve);
    var twice := Merged(once, incoming, preserve);
    MergedAt(before, incoming, preserve, k);
    MergedAt(once, incoming, preserve, k);
    SettleAgain(preserve, Lookup(before, k), incoming[k]);
  }

  /**
   Merging the same values again changes nothing exactly when the first merge did not store a list with
   repetitions in a place that held no list; a third merge never changes anything.
   */
  lemma MergeConverges(before: Values, incoming: Values, preserve: bool)
    ensures var once := Merged(before, incoming, preserve);
            var twice := Merged(once, incoming, preserve);
            && (twice == once <==> forall k ::
                  k in incoming ==> !StoresRepeats(preserve, Lookup(before, k), incoming[k]))
            && Merged(twice, incoming, preserve) == twice
  {
    var once := Merged(before, incoming, preserve);
    var twice := Merged(once, incoming, preserve);
    forall k | k in incoming
      ensures k in ChangedKeys(once, incoming, preserve) <==> StoresRepeats(preserve, Lookup(before, k), incoming[k])
      ensures k !in ChangedKeys(twice, incoming, preserve)
    {
      MergedAgainAt(before, incoming, preserve, k);
    }
    MergeReportsExactly(once, incoming, preserve);
    MergeReportsExactly(twice, incoming, preserve);
    assert ChangedKeys(twice, incoming, preserve) == {};
  }
}
