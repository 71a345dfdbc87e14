/**
 What the steps of a records definition do to the values of a page: each operation by the field it changes, each rule
 by what breaks it, and extraction by what was read.
 */
module FieldAnswers {
  import opened Common
  import opened Json
  import opened RecordModel
  import opened FieldFlow
  import CrawlPolicy

  // ----- Texts --------------------------------------------------------------------------------------------

  predicate OccursAt(s: string, part: string, i: nat) {
    i + |part| <= |s| && s[i..i + |part|] == part
  }

  lemma OccursLater(s: string, part: string, i: nat)
    requires s != ""
    ensures OccursAt(s, part, i + 1) <==> OccursAt(s[1..], part, i)
  {
    if i + 1 + |part| <= |s| {
      assert s[1..][i..i + |part|] == s[i + 1..i + 1 + |part|];
    }
  }

  lemma OccursFirst(s: string, part: string)
    ensures OccursAt(s, part, 0) <==> part <= s
  {
  }

  lemma {:induction false} IndexIsFirst(s: string, part: string)
    ensures IndexOf(s, part).None? <==> forall i :: !OccursAt(s, part, i)
    ensures IndexOf(s, part).Some? ==>
              var first := IndexOf(s, part).value;
              OccursAt(s, part, first) && forall i: nat :: i < first ==> !OccursAt(s, part, i)
  {
    OccursFirst(s, part);
    if s != "" && !(part <= s) {
      IndexIsFirst(s[1..], part);
      forall i: nat ensures OccursAt(s, part, i) <==> i > 0 && OccursAt(s[1..], part, i - 1) {
        if i > 0 {
          OccursLater(s, part, i - 1);
        }
      }
      hide OccursAt;
      if i: nat :| OccursAt(s[1..], part, i) {
        assert OccursAt(s, part, i + 1);
      }
    }
  }

  /** The parts make up the text with the separator between them, each ending where the separator first occurs. */
  ghost predicate IsSplit(text: string, separator: string, parts: seq<string>)
    decreases |parts|
  {
    && parts != []
    && (if |parts| == 1 then parts[0] == text && forall i :: !OccursAt(text, separator, i)
        else
          && OccursAt(text, separator, |parts[0]|) && text[..|parts[0]|] == parts[0]
          && (forall i :: 0 <= i < |parts[0]| ==> !OccursAt(text, separator, i))
          && IsSplit(text[|parts[0]| + |separator|..], separator, parts[1..]))
  }

  lemma SplitsOff(text: string, separator: string, i: nat, rest: seq<string>)
    requires OccursAt(text, separator, i) && forall j: nat :: j < i ==> !OccursAt(text, separator, j)
    requires i + |separator| <= |text| && IsSplit(text[i + |separator|..], separator, rest)
    ensures IsSplit(text, separator, [text[..i]] + rest)
  {
    hide OccursAt;
    var parts := [text[..i]] + rest;
    assert parts[0] == text[..i] && parts[1..] == rest;
  }

  lemma NothingToSplit(text: string, separator: string)
    requires forall j: nat :: !OccursAt(text, separator, j)
    ensures IsSplit(text, separator, [text])
  {
  }

  lemma {:induction false} PartsAreSplit(s: string, separator: string)
    requires separator != ""
    ensures IsSplit(s, separator, Parts(s, separator))
    decreases |s|
  {
    hide OccursAt, IsSplit, IndexOf;
    IndexIsFirst(s, separator);
    if IndexOf(s, separator).Some? {
      var i := IndexOf(s, separator).value;
      PartsAreSplit(s[i + |separator|..], separator);
      SplitsOff(s, separator, i, Parts(s[i + |separator|..], separator));
    } else {
      NothingToSplit(s, separator);
    }
  }

  /** Texts are put together with the separator between each two of them. */
  lemma JoinAddsLast(texts: seq<string>, last: string, separator: string)
    ensures JoinTexts([], separator) == ""
    ensures JoinTexts(texts + [last], separator)
            == if texts == [] then last else JoinTexts(texts, separator) + separator + last
  {
    assert (texts + [last])[..|texts|] == texts;
  }

  // ----- Operations ------------------------------------------------------------------------------------------

  /** Fields other than these two stay as they are. */
  ghost predicate OthersStay(o: Values, n: Values, field: string, to: string) {
    forall k :: k != field && k != to ==> (k in o <==> k in n) && (k in o ==> n[k] == o[k])
  }

  predicate ChangesText(op: OpName) {
    op == TrimText || op == Lower || op == Upper
  }

  /** An operation fails without the names it needs, and on a value that is not a text or, for a join, not a list. */
  lemma OperationFailsIff(show: Json -> string, values: Values, o: Operation)
    ensures var field := Trim(o.field);
            ApplyOp(show, values, o).None? <==>
              || field == "" || (o.op == Rename && Trim(o.to) == "")
              || (ChangesText(o.op) && field in values && !values[field].Null? && !values[field].Str?)
              || (o.op == Split && field in values && !values[field].Str?)
              || (o.op == Join && field in values && !values[field].Arr?)
  {
  }

  /** A present field moves to its new name, and is gone if that is its old one. */
  lemma RenameMoves(show: Json -> string, values: Values, o: Operation)
    requires o.op == Rename && ApplyOp(show, values, o).Some?
    ensures var n, field, to := ApplyOp(show, values, o).value, Trim(o.field), Trim(o.to);
            && OthersStay(values, n, field, to)
            && (field in values ==> field !in n && (to != field ==> to in n && n[to] == values[field]))
            && (field !in values ==> n == values)
  {
  }

  /** Set writes, default writes where there is no value, delete removes. */
  lemma WritesAndDeletes(show: Json -> string, values: Values, o: Operation)
    requires o.op == Set || o.op == Default || o.op == Delete
    requires ApplyOp(show, values, o).Some?
    ensures var n, field := ApplyOp(show, values, o).value, Trim(o.field);
            && OthersStay(values, n, field, field)
            && (o.op == Delete ==> field !in n)
            && (o.op == Set ==> field in n && n[field] == o.value)
            && (o.op == Default && Empty(Lookup(values, field)) ==> field in n && n[field] == o.value)
            && (o.op == Default && !Empty(Lookup(values, field)) ==> n == values)
  {
  }

  /** The text of a field is trimmed or changed letter by letter; an absent or null field stays. */
  lemma TextChanges(show: Json -> string, values: Values, o: Operation)
    requires ChangesText(o.op) && ApplyOp(show, values, o).Some?
    ensures var n, field := ApplyOp(show, values, o).value, Trim(o.field);
            && OthersStay(values, n, field, field)
            && (Lookup(values, field).Null? ==> n == values)
            && (!Lookup(values, field).Null? ==>
                  && values[field].Str? && field in n && n[field].Str?
                  && var text, changed := values[field].text, n[field].text;
                  && (o.op == TrimText ==> changed == Trim(text))
                  && (o.op != TrimText ==> |changed| == |text| && forall i :: 0 <= i < |text| ==>
                        changed[i] == if o.op == Lower then CrawlPolicy.LowerChar(text[i]) else UpperChar(text[i])))
  {
  }

  /** A text becomes the list of its parts, each trimmed; a comma separates if nothing else is given. */
  lemma SplitDivides(show: Json -> string, values: Values, o: Operation)
    requires o.op == Split && ApplyOp(show, values, o).Some?
    ensures var n, field := ApplyOp(show, values, o).value, Trim(o.field);
            && OthersStay(values, n, field, field)
            && (field !in values ==> n == values)
            && (field in values ==>
                  && values[field].Str? && field in n && n[field].Arr?
                  && exists parts ::
                       && IsSplit(values[field].text, if Trim(o.separator) == "" then "," else Trim(o.separator), parts)
                       && |n[field].items| == |parts|
                       && forall i :: 0 <= i < |parts| ==> n[field].items[i] == Str(Trim(parts[i])))
  {
    var separator := if Trim(o.separator) == "" then "," else Trim(o.separator);
    var field := Trim(o.field);
    if field in values {
      PartsAreSplit(values[field].text, separator);
      var parts := Parts(values[field].text, separator);
      assert IsSplit(values[field].text, separator, parts);
    }
  }

  /** A value as a text: nothing for null, otherwise trimmed. */
  function TextOf(show: Json -> string, v: Json): string {
    if v.Null? then "" else if v.Str? then Trim(v.text) else Trim(show(v))
  }

  /** A list becomes the texts of its items with the separator in between. */
  lemma JoinUnites(show: Json -> string, values: Values, o: Operation)
    requires o.op == Join && ApplyOp(show, values, o).Some?
    ensures var n, field := ApplyOp(show, values, o).value, Trim(o.field);
            && OthersStay(values, n, field, field)
            && (field !in values ==> n == values)
            && (field in values ==>
                  && values[field].Arr? && field in n
                  && var items := values[field].items;
                  n[field] == Str(JoinTexts(seq(|items|, i requires 0 <= i < |items| => TextOf(show, items[i])),
                                            Trim(o.separator))))
  {
    var field := Trim(o.field);
    if field in values && values[field].Arr? {
      var items := values[field].items;
      assert seq(|items|, i requires 0 <= i < |items| => TextOf(show, items[i]))
          == seq(|items|, i requires 0 <= i < |items| => StringValue(show, items[i]));
    }
  }

  // ----- Rules and extraction ----------------------------------------------------------------------------------

  /** How a value can break a rule. */
  datatype Breach = NameMissing | MissesValue | WrongKind | NoMatch | NotAllowed

  predicate Breaks<Page>(env: Env<Page>, values: Values, rule: Rule, why: Breach) {
    var name := Trim(rule.name);
    var v := Lookup(values, name);
    match why
    case NameMissing => name == ""
    case MissesValue => rule.required && Empty(v)
    case WrongKind =>
      !Empty(v) && Trim(rule.kind) != "" && !env.hasKind(v, MapText(Trim(rule.kind), CrawlPolicy.LowerChar))
    case NoMatch => !Empty(v) && Trim(rule.pattern) != "" && !env.matches(Trim(rule.pattern), TextOf(env.show, v))
    case NotAllowed =>
      !Empty(v) && rule.allowed.Some? && forall i :: 0 <= i < |rule.allowed.value| ==>
        rule.allowed.value[i] != v && TextOf(env.show, rule.allowed.value[i]) != TextOf(env.show, v)
  }

  /** A rule holds exactly if nothing breaks it; an empty value breaks only a rule that requires one. */
  lemma RuleHoldsIff<Page>(env: Env<Page>, values: Values, rule: Rule)
    ensures RuleHolds(env, values, rule) <==> forall why :: !Breaks(env, values, rule, why)
  {
    assert Breaks(env, values, rule, NameMissing) <==> Trim(rule.name) == "";
    if !RuleHolds(env, values, rule) {
      assert || Breaks(env, values, rule, NameMissing) || Breaks(env, values, rule, MissesValue)
             || Breaks(env, values, rule, WrongKind) || Breaks(env, values, rule, NoMatch)
             || Breaks(env, values, rule, NotAllowed);
    }
  }

  /** Extraction yields exactly the named fields, each with what was read, if all of them can be read. */
  lemma {:induction false} ExtractionIff<Page>(env: Env<Page>, page: Page, fields: seq<string>)
    ensures var r := ExtractFields(env, page, fields);
            && (r.Some? <==> forall i :: 0 <= i < |fields| ==> env.read(page, fields[i]).Some?)
            && (r.Some? ==> forall k :: k in r.value <==> k in fields)
            && (r.Some? ==> forall k :: k in r.value ==> env.read(page, k) == Some(r.value[k]))
  {
    if fields != [] {
      ExtractionIff(env, page, fields[..|fields| - 1]);
      assert fields == fields[..|fields| - 1] + [fields[|fields| - 1]];
    }
  }

  /** A node runs in every role, or in those it lists, letter case and surrounding space aside. */
  lemma RunsInListedRoles(node: Node, role: string)
    ensures Applies(node, role) <==>
              node.runOn.None? || exists r ::
                r in node.runOn.value && |r| == |Trim(role)| && forall i :: 0 <= i < |r| ==>
                  CrawlPolicy.LowerChar(r[i]) == CrawlPolicy.LowerChar(Trim(role)[i])
  {
    if node.runOn.Some? {
      assert forall r :: CrawlPolicy.EqualFold(r, Trim(role)) <==>
               |r| == |Trim(role)| && forall i :: 0 <= i < |r| ==>
                 CrawlPolicy.LowerChar(r[i]) == CrawlPolicy.LowerChar(Trim(role)[i]);
    }
  }
}
