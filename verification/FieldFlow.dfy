/**
 From page to candidate: a records definition extracts named fields, transforms and validates them.  Before a
 run its field names are followed statically through the operations; here both ways are compared.
 */
module FieldFlow {
  import opened Common
  import opened Json
  import opened RecordModel
  import CrawlPolicy

  datatype OpName = Rename | TrimText | Lower | Upper | Split | Join | Default | Set | Delete

  /** One transform operation with its operands as written in the definition. */
  datatype Operation = Operation(op: OpName, field: string, to: string, separator: string, value: Json)

  datatype Rule = Rule(name: string, required: bool, kind: string, pattern: string, allowed: Option<seq<Json>>)

  datatype Body = Extract(fields: seq<string>) | Transform(operations: seq<Operation>) | Validate(rules: seq<Rule>)

  /** A node and the roles it runs in; no list means every role. */
  datatype Node = Node(body: Body, runOn: Option<seq<string>>)

  /** What the pipeline takes from elsewhere: the value a field rule finds in a page, printing, types and patterns. */
  datatype Env<!Page> = Env(
    read: (Page, string) -> Option<Json>,
    show: Json -> string,
    hasKind: (Json, string) -> bool,
    matches: (string, string) -> bool,
    formats: Formats)

  // ----- Transforming -----------------------------------------------------------------------------

  function MapText(s: string, f: char -> char): string {
    seq(|s|, i requires 0 <= i < |s| => f(s[i]))
  }

  /** The first place at which `part` occurs. */
  function IndexOf(s: string, part: string): (i: Option<nat>)
    ensures i.Some? ==> i.value + |part| <= |s|
  {
    if part <= s then Some(0)
    else if s == [] then None
    else match IndexOf(s[1..], part)
      case None => None
      case Some(i) => Some(i + 1)
  }

  function Parts(s: string, separator: string): seq<string>
    requires separator != ""
    decreases |s|
  {
    match IndexOf(s, separator)
    case None => [s]
    case Some(i) => [s[..i]] + Parts(s[i + |separator|..], separator)
  }

  function JoinTexts(texts: seq<string>, separator: string): string {
    if texts == [] then ""
    else if |texts| == 1 then texts[0]
    else JoinTexts(texts[..|texts| - 1], separator) + separator + texts[|texts| - 1]
  }

  function ChangeText(op: OpName, text: string): string {
    match op
    case TrimText => Trim(text)
    case Lower => MapText(text, CrawlPolicy.LowerChar)
    case _ => MapText(text, UpperChar)
  }

  /** A value as text; numbers and the rest are printed. */
  function StringValue(show: Json -> string, v: Json): string {
    match v
    case Null => ""
    case Str(text) => Trim(text)
    case _ => Trim(show(v))
  }

  function SplitText(text: string, separator: string): Json {
    var parts := Parts(text, if Trim(separator) == "" then "," else Trim(separator));
    Arr(seq(|parts|, i requires 0 <= i < |parts| => Str(Trim(parts[i]))))
  }

  function JoinItems(show: Json -> string, items: seq<Json>, separator: string): Json {
    Str(JoinTexts(seq(|items|, i requires 0 <= i < |items| => StringValue(show, items[i])), Trim(separator)))
  }

  /** One operation; operand names are trimmed first. */
  function ApplyOp(show: Json -> string, values: Values, o: Operation): Option<Values> {
    var field, to := Trim(o.field), Trim(o.to);
    if field == "" || (o.op == Rename && to == "") then None
    else
      match o.op
      case Rename => Some(if field in values then values[to := values[field]] - {field} else values)
      case Set => Some(values[field := o.value])
      case Default => Some(if Empty(Lookup(values, field)) then values[field := o.value] else values)
      case Delete => Some(values - {field})
      case Split =>
        if field !in values then Some(values)
        else if !values[field].Str? then None
        else Some(values[field := SplitText(values[field].text, o.separator)])
      case Join =>
        if field !in values then Some(values)
        else if !values[field].Arr? then None
        else Some(values[field := JoinItems(show, values[field].items, o.separator)])
      case _ =>
        if field !in values || values[field].Null? then Some(values)
        else if !values[field].Str? then None
        else Some(values[field := Str(ChangeText(o.op, values[field].text))])
  }

  function ApplyOps(show: Json -> string, values: Values, ops: seq<Operation>): Option<Values> {
    if ops == [] then Some(values)
    else match ApplyOps(show, values, ops[..|ops| - 1])
      case None => None
      case Some(v) => ApplyOp(show, v, ops[|ops| - 1])
  }

  /** The operations in order, on the values in place; the first that fails ends it. */
  method ApplyTransform(show: Json -> string, values: Values, ops: seq<Operation>) returns (out: Option<Values>)
    ensures out == ApplyOps(show, values, ops)
  {
    var current := values;
    for i := 0 to |ops|
      invariant ApplyOps(show, values, ops[..i]) == Some(current)
    {
      StepOfOps(show, values, ops, i);
      var field, to := Trim(ops[i].field), Trim(ops[i].to);
      if field == "" || (ops[i].op == Rename && to == "") {
        return None;
      }
      if ops[i].op == Rename {
        if field in current {
          var value := current[field];
          current := current[to := value];
          current := current - {field};
        }
      } else if ops[i].op == Set || ops[i].op == Default {
        if ops[i].op == Set || Empty(Lookup(current, field)) {
          current := current[field := ops[i].value];
        }
      } else if ops[i].op == Delete {
        current := current - {field};
      } else {
        var changed := ApplyOp(show, current, ops[i]);
        if changed.None? {
          return None;
        }
        current := changed.value;
      }
    }
    assert ops[..|ops|] == ops;
    out := Some(current);
  }

  /** A failed operation is final. */
  lemma {:induction false} StepOfOps(show: Json -> string, values: Values, ops: seq<Operation>, i: nat)
    requires i < |ops| && ApplyOps(show, values, ops[..i]).Some?
    ensures ApplyOps(show, values, ops[..i + 1]) == ApplyOp(show, ApplyOps(show, values, ops[..i]).value, ops[i])
    ensures ApplyOps(show, values, ops[..i + 1]).None? ==> ApplyOps(show, values, ops).None?
    decreases |ops|
  {
    hide ApplyOp;
    assert ops[..i + 1][..i] == ops[..i];
    if i + 1 == |ops| {
      assert ops[..i + 1] == ops;
    } else {
      var front := ops[..|ops| - 1];
      assert front[..i] == ops[..i] && front[..i + 1] == ops[..i + 1] && front[i] == ops[i];
      StepOfOps(show, values, front, i);
    }
  }

  // ----- Validating ---------------------------------------------------------------------------------

  predicate SameValue(show: Json -> string, a: Json, b: Json) {
    a == b || StringValue(show, a) == StringValue(show, b)
  }

  predicate RuleHolds<Page>(env: Env<Page>, values: Values, rule: Rule) {
    var name := Trim(rule.name);
    var v := Lookup(values, name);
    && name != ""
    && (if Empty(v) then !rule.required
        else
          && (Trim(rule.kind) != "" ==> env.hasKind(v, MapText(Trim(rule.kind), CrawlPolicy.LowerChar)))
          && (Trim(rule.pattern) != "" ==> env.matches(Trim(rule.pattern), StringValue(env.show, v)))
          && (rule.allowed.Some? ==> exists i ::
                0 <= i < |rule.allowed.value| && SameValue(env.show, rule.allowed.value[i], v)))
  }

  method ValidateValues<Page>(env: Env<Page>, values: Values, rules: seq<Rule>) returns (ok: bool)
    ensures ok <==> forall i :: 0 <= i < |rules| ==> RuleHolds(env, values, rules[i])
  {
    for i := 0 to |rules|
      invariant forall j :: 0 <= j < i ==> RuleHolds(env, values, rules[j])
    {
      if !RuleHolds(env, values, rules[i]) {
        return false;
      }
    }
    ok := true;
  }

  // ----- Running a definition -------------------------------------------------------------------------

  predicate Applies(node: Node, role: string) {
    node.runOn.Some? ==> exists i ::
          0 <= i < |node.runOn.value| && CrawlPolicy.EqualFold(node.runOn.value[i], Trim(role))
  }

  /** A field rule yields exactly the field it names. */
  function ExtractFields<Page>(env: Env<Page>, page: Page, fields: seq<string>): Option<Values> {
    if fields == [] then Some(map[])
    else
      var front, value := ExtractFields(env, page, fields[..|fields| - 1]), env.read(page, fields[|fields| - 1]);
      if front.None? || value.None? then None else Some(front.value[fields[|fields| - 1] := value.value])
  }

  function RunNode<Page>(env: Env<Page>, page: Page, node: Node, role: string, values: Values): Option<Values> {
    if !Applies(node, role) then Some(values)
    else
      match node.body
      case Extract(fields) => ExtractFields(env, page, fields)
      case Transform(ops) => ApplyOps(env.show, values, ops)
      case Validate(rules) =>
        if forall i :: 0 <= i < |rules| ==> RuleHolds(env, values, rules[i]) then Some(values) else None
  }

  /** The values that reach preparation, if no node fails. */
  function RunNodes<Page>(env: Env<Page>, page: Page, nodes: seq<Node>, role: string): Option<Values> {
    if nodes == [] then Some(map[])
    else match RunNodes(env, page, nodes[..|nodes| - 1], role)
      case None => None
      case Some(values) => RunNode(env, page, nodes[|nodes| - 1], role, values)
  }

  function CandidateOf<Page>(env: Env<Page>, page: Page, nodes: seq<Node>, role: string,
                             schema: Schema): Option<Candidate> {
    match RunNodes(env, page, nodes, role)
    case None => None
    case Some(raw) => Prepare(env.formats, schema, raw)
  }

  /** The candidates of all pages of a document, if every page yields one. */
  function CandidatesOf<Page>(env: Env<Page>, pages: seq<Page>, nodes: seq<Node>, role: string,
                              schema: Schema): Option<seq<Candidate>> {
    if pages == [] then Some([])
    else
      var front, last := CandidatesOf(env, pages[..|pages| - 1], nodes, role, schema),
          CandidateOf(env, pages[|pages| - 1], nodes, role, schema);
      if front.None? || last.None? then None else Some(front.value + [last.value])
  }

  /**
   Checks the definition against the schema, then runs its nodes over each page and prepares what they yield; the
   first failure ends it.
   */
  method TraceRecordCandidates<Page>(env: Env<Page>, pages: seq<Page>, nodes: seq<Node>, role: string, schema: Schema)
    returns (candidates: Option<seq<Candidate>>)
    ensures candidates == if SchemaAccepts(schema, StaticNames(nodes, role))
            then CandidatesOf(env, pages, nodes, role, schema) else None
  {
    var accepted := ValidateRecordSchema(nodes, role, schema);
    if !accepted {
      return None;
    }
    var out: seq<Candidate> := [];
    for i := 0 to |pages|
      invariant CandidatesOf(env, pages[..i], nodes, role, schema) == Some(out)
    {
      StepOfPages(env, pages, nodes, role, schema, i);
      var values := RunPage(env, pages[i], nodes, role);
      if values.None? {
        return None;
      }
      var prepared, _ := PrepareCandidate(env.formats, schema, values.value);
      if prepared.None? {
        return None;
      }
      out := out + [prepared.value];
    }
    assert pages[..|pages|] == pages;
    candidates := Some(out);
  }

  method RunPage<Page>(env: Env<Page>, page: Page, nodes: seq<Node>, role: string) returns (values: Option<Values>)
    ensures values == RunNodes(env, page, nodes, role)
  {
    var current: Values := map[];
    for i := 0 to |nodes|
      invariant RunNodes(env, page, nodes[..i], role) == Some(current)
    {
      StepOfNodes(env, page, nodes, role, i);
      if !Applies(nodes[i], role) {
        continue;
      }
      match nodes[i].body
      case Extract(fields) =>
        var extracted := ExtractFields(env, page, fields);
        if extracted.None? {
          return None;
        }
        current := extracted.value;
      case Transform(ops) =>
        var transformed := ApplyTransform(env.show, current, ops);
        if transformed.None? {
          return None;
        }
        current := transformed.value;
      case Validate(rules) =>
        var ok := ValidateValues(env, current, rules);
        if !ok {
          return None;
        }
    }
    assert nodes[..|nodes|] == nodes;
    values := Some(current);
  }

  /** A failed node is final. */
  lemma {:induction false} StepOfNodes<Page>(env: Env<Page>, page: Page, nodes: seq<Node>, role: string, i: nat)
    requires i < |nodes| && RunNodes(env, page, nodes[..i], role).Some?
    ensures RunNodes(env, page, nodes[..i + 1], role)
            == RunNode(env, page, nodes[i], role, RunNodes(env, page, nodes[..i], role).value)
    ensures RunNodes(env, page, nodes[..i + 1], role).None? ==> RunNodes(env, page, nodes, role).None?
    decreases |nodes|
  {
    hide RunNode;
    assert nodes[..i + 1][..i] == nodes[..i];
    if i + 1 == |nodes| {
      assert nodes[..i + 1] == nodes;
    } else {
      var front := nodes[..|nodes| - 1];
      assert front[..i] == nodes[..i] && front[..i + 1] == nodes[..i + 1] && front[i] == nodes[i];
      StepOfNodes(env, page, front, role, i);
    }
  }

  /** A failed page is final. */
  lemma {:induction false} StepOfPages<Page>(env: Env<Page>, pages: seq<Page>, nodes: seq<Node>, role: string,
                                             schema: Schema, i: nat)
    requires i < |pages| && CandidatesOf(env, pages[..i], nodes, role, schema).Some?
    ensures CandidatesOf(env, pages[..i + 1], nodes, role, schema)
         == match CandidateOf(env, pages[i], nodes, role, schema)
            case None => None
            case Some(c) => Some(CandidatesOf(env, pages[..i], nodes, role, schema).value + [c])
    ensures CandidateOf(env, pages[i], nodes, role, schema).None? ==>
              CandidatesOf(env, pages, nodes, role, schema).None?
    decreases |pages|
  {
    hide CandidateOf;
    assert pages[..i + 1][..i] == pages[..i];
    if i + 1 == |pages| {
      assert pages[..i + 1] == pages;
    } else {
      var front := pages[..|pages| - 1];
      assert front[..i] == pages[..i] && front[..i + 1] == pages[..i + 1] && front[i] == pages[i];
      StepOfPages(env, front, nodes, role, schema, i);
    }
  }

  /** Names after one operation as publication follows them. */
  function StaticStep(names: set<string>, o: Operation): set<string> {
    var field := Trim(o.field);
    match o.op
    case Rename => if field in names then names - {field} + {Trim(o.to)} else names
    case Delete => names - {field}
    case Set => names + {field}
    case Default => names + {field}
    case _ => names
  }

  function StaticOps(names: set<string>, ops: seq<Operation>): set<string> {
    if ops == [] then names else StaticStep(StaticOps(names, ops[..|ops| - 1]), ops[|ops| - 1])
  }

  function FieldSet(fields: seq<string>): set<string> {
    set i | 0 <= i < |fields| :: fields[i]
  }

  function StaticNames(nodes: seq<Node>, role: string): set<string> {
    if nodes == [] then {}
    else
      var before, last := StaticNames(nodes[..|nodes| - 1], role), nodes[|nodes| - 1];
      if !Applies(last, role) then before
      else match last.body
        case Extract(fields) => before + FieldSet(fields)
        case Transform(ops) => StaticOps(before, ops)
        case Validate(_) => before
  }

  /** Required fields and key fields are produced, and nothing the dataset does not know. */
  ghost predicate SchemaAccepts(schema: Schema, names: set<string>) {
    && (forall i :: 0 <= i < |schema.fields| && schema.fields[i].required ==> schema.fields[i].key in names)
    && (forall name :: name in names ==> FieldOf(schema.fields, name).Some?)
    && (forall i :: 0 <= i < |schema.uniqueKey| ==> schema.uniqueKey[i] in names)
  }

  method FollowNames(nodes: seq<Node>, role: string) returns (names: set<string>)
    ensures names == StaticNames(nodes, role)
  {
    names := {};
    for i := 0 to |nodes|
      invariant names == StaticNames(nodes[..i], role)
    {
      assert nodes[..i + 1][..i] == nodes[..i];
      if Applies(nodes[i], role) {
        match nodes[i].body
        case Extract(fields) =>
          names := names + set j | 0 <= j < |fields| :: fields[j];
        case Transform(ops) =>
          ghost var before := names;
          for j := 0 to |ops|
            invariant names == StaticOps(before, ops[..j])
          {
            assert ops[..j + 1][..j] == ops[..j];
            var field := Trim(ops[j].field);
            match ops[j].op
            case Rename =>
              if field in names {
                names := names - {field};
                names := names + {Trim(ops[j].to)};
              }
            case Delete => names := names - {field};
            case Set => names := names + {field};
            case Default => names := names + {field};
            case _ =>
          }
          assert ops[..|ops|] == ops;
        case Validate(_) =>
      }
    }
    assert nodes[..|nodes|] == nodes;
  }

  method ValidateRecordSchema(nodes: seq<Node>, role: string, schema: Schema) returns (ok: bool)
    ensures ok <==> SchemaAccepts(schema, StaticNames(nodes, role))
  {
    var names := FollowNames(nodes, role);
    var known: set<string> := {};
    for i := 0 to |schema.fields|
      invariant known == set j | 0 <= j < i :: schema.fields[j].key
      invariant forall j :: 0 <= j < i && schema.fields[j].required ==> schema.fields[j].key in names
    {
      known := known + {schema.fields[i].key};
      if schema.fields[i].required && schema.fields[i].key !in names {
        return false;
      }
    }
    if !(names <= known) {
      var stray :| stray in names && stray !in known;
      assert FieldOf(schema.fields, stray).None?;
      return false;
    }
    for i := 0 to |schema.uniqueKey|
      invariant forall j :: 0 <= j < i ==> schema.uniqueKey[j] in names
    {
      if schema.uniqueKey[i] !in names {
        return false;
      }
    }
    ok := true;
  }

  // ----- Names at run time -------------------------------------------------------------------------------

  /** Names after one operation as it is carried out: the new name is written before the old one is removed. */
  function RunStep(names: set<string>, o: Operation): set<string> {
    var field := Trim(o.field);
    match o.op
    case Rename => if field in names then names + {Trim(o.to)} - {field} else names
    case Delete => names - {field}
    case Set => names + {field}
    case Default => names + {field}
    case _ => names
  }

  function RunOps(names: set<string>, ops: seq<Operation>): set<string> {
    if ops == [] then names else RunStep(RunOps(names, ops[..|ops| - 1]), ops[|ops| - 1])
  }

  function RunNames(nodes: seq<Node>, role: string): set<string> {
    if nodes == [] then {}
    else
      var before, last := RunNames(nodes[..|nodes| - 1], role), nodes[|nodes| - 1];
      if !Applies(last, role) then before
      else match last.body
        case Extract(fields) => FieldSet(fields)
        case Transform(ops) => RunOps(before, ops)
        case Validate(_) => before
  }

  lemma {:induction false} ExtractedNames<Page>(env: Env<Page>, page: Page, fields: seq<string>)
    requires ExtractFields(env, page, fields).Some?
    ensures ExtractFields(env, page, fields).value.Keys == FieldSet(fields)
  {
    if fields != [] {
      ExtractedNames(env, page, fields[..|fields| - 1]);
      assert FieldSet(fields) == FieldSet(fields[..|fields| - 1]) + {fields[|fields| - 1]};
    }
  }

  lemma OpNames(show: Json -> string, values: Values, o: Operation)
    requires ApplyOp(show, values, o).Some?
    ensures ApplyOp(show, values, o).value.Keys == RunStep(values.Keys, o)
  {
    if o.op == Default && !Empty(Lookup(values, Trim(o.field))) {
      assert Trim(o.field) in values;
    }
  }

  lemma {:induction false} OpsNames(show: Json -> string, values: Values, ops: seq<Operation>)
    requires ApplyOps(show, values, ops).Some?
    ensures ApplyOps(show, values, ops).value.Keys == RunOps(values.Keys, ops)
  {
    if ops != [] {
      OpsNames(show, values, ops[..|ops| - 1]);
      OpNames(show, ApplyOps(show, values, ops[..|ops| - 1]).value, ops[|ops| - 1]);
    }
  }

  /** Whatever the page contains, a candidate that reaches preparation has exactly these names. */
  lemma {:induction false} RuntimeNames<Page>(env: Env<Page>, page: Page, nodes: seq<Node>, role: string)
    requires RunNodes(env, page, nodes, role).Some?
    ensures RunNodes(env, page, nodes, role).value.Keys == RunNames(nodes, role)
  {
    if nodes != [] {
      var front, last := nodes[..|nodes| - 1], nodes[|nodes| - 1];
      RuntimeNames(env, page, front, role);
      if Applies(last, role) {
        match last.body
        case Extract(fields) => ExtractedNames(env, page, fields);
        case Transform(ops) => OpsNames(env.show, RunNodes(env, page, front, role).value, ops);
        case Validate(_) =>
      }
    }
  }

  // ----- Static against run time --------------------------------------------------------------------------

  predicate SelfRename(o: Operation) {
    o.op == Rename && Trim(o.field) == Trim(o.to)
  }

  predicate NoSelfRename(nodes: seq<Node>) {
    forall i :: 0 <= i < |nodes| && nodes[i].body.Transform? ==>
      forall j :: 0 <= j < |nodes[i].body.operations| ==> !SelfRename(nodes[i].body.operations[j])
  }

  /** What publication makes sure of for a records definition: it begins with its one extract node. */
  predicate ExtractsFirst(nodes: seq<Node>) {
    |nodes| > 0 && nodes[0].body.Extract? && forall i :: 0 < i < |nodes| ==> !nodes[i].body.Extract?
  }

  /** One step agrees exactly if it does not rename a present field to itself. */
  lemma StepsAgreeIff(names: set<string>, o: Operation)
    ensures RunStep(names, o) == StaticStep(names, o) <==> !(SelfRename(o) && Trim(o.field) in names)
  {
  }

  lemma StepStaysBelow(run: set<string>, promised: set<string>, o: Operation)
    requires run <= promised
    ensures RunStep(run, o) <= StaticStep(promised, o)
    ensures run == promised && !SelfRename(o) ==> RunStep(run, o) == StaticStep(promised, o)
  {
  }

  lemma {:induction false} OpsStayBelow(run: set<string>, promised: set<string>, ops: seq<Operation>)
    requires run <= promised
    ensures RunOps(run, ops) <= StaticOps(promised, ops)
    ensures run == promised && (forall j :: 0 <= j < |ops| ==> !SelfRename(ops[j])) ==>
              RunOps(run, ops) == StaticOps(promised, ops)
  {
    if ops != [] {
      OpsStayBelow(run, promised, ops[..|ops| - 1]);
      StepStaysBelow(RunOps(run, ops[..|ops| - 1]), StaticOps(promised, ops[..|ops| - 1]), ops[|ops| - 1]);
    }
  }

  /** Publication never misses a name; without a field renamed to itself it also promises none too many. */
  lemma {:induction false} NamesStayBelow(nodes: seq<Node>, role: string)
    requires ExtractsFirst(nodes)
    ensures RunNames(nodes, role) <= StaticNames(nodes, role)
    ensures NoSelfRename(nodes) ==> RunNames(nodes, role) == StaticNames(nodes, role)
  {
    var front, last := nodes[..|nodes| - 1], nodes[|nodes| - 1];
    if front == [] {
      assert StaticNames(front, role) == {};
    } else {
      assert ExtractsFirst(front);
      NamesStayBelow(front, role);
      if last.body.Transform? {
        OpsStayBelow(RunNames(front, role), StaticNames(front, role), last.body.operations);
      }
    }
  }

  /**
   Static check and run time agree.  A definition without a field renamed to itself whose names the schema accepts
   only yields candidates with exactly these names: preparation meets no unknown field, and
   every required field and key field is there.
   */
  lemma AcceptedDefinitionsFit<Page>(env: Env<Page>, page: Page, nodes: seq<Node>, role: string, schema: Schema)
    requires ExtractsFirst(nodes) && NoSelfRename(nodes)
    requires SchemaAccepts(schema, StaticNames(nodes, role)) && RunNodes(env, page, nodes, role).Some?
    ensures var raw := RunNodes(env, page, nodes, role).value;
            && raw.Keys == StaticNames(nodes, role)
            && (forall name :: name in raw ==> FieldOf(schema.fields, name).Some?)
            && (forall i :: 0 <= i < |schema.uniqueKey| ==> schema.uniqueKey[i] in raw)
            && (forall i :: 0 <= i < |schema.fields| && schema.fields[i].required ==> schema.fields[i].key in raw)
  {
    RuntimeNames(env, page, nodes, role);
    NamesStayBelow(nodes, role);
  }

  /** Even with self-renames preparation never meets an unknown field. */
  lemma NoUnknownField<Page>(env: Env<Page>, page: Page, nodes: seq<Node>, role: string, schema: Schema)
    requires ExtractsFirst(nodes)
    requires SchemaAccepts(schema, StaticNames(nodes, role)) && RunNodes(env, page, nodes, role).Some?
    ensures forall name :: name in RunNodes(env, page, nodes, role).value ==> FieldOf(schema.fields, name).Some?
  {
    RuntimeNames(env, page, nodes, role);
    NamesStayBelow(nodes, role);
  }

  /** Preparation itself insists on the same names. */
  lemma PreparedFits(fmt: Formats, schema: Schema, raw: Values)
    requires Prepare(fmt, schema, raw).Some?
    ensures SchemaAccepts(schema, raw.Keys)
  {
    var values := NormalizeValues(fmt, schema, raw);
    assert forall name :: name in raw ==> EntryAccepted(fmt, schema, raw, name);
    assert forall name :: name !in raw ==> Lookup(values, name) == Null;
    assert forall i :: 0 <= i < |schema.uniqueKey| ==> KeyFieldFilled(schema, values, schema.uniqueKey[i]);
  }

  /** The static check rejects nothing that could have worked: without it, no page would yield a candidate. */
  lemma RejectedDefinitionsNeverFit<Page>(env: Env<Page>, page: Page, nodes: seq<Node>, role: string, schema: Schema)
    requires ExtractsFirst(nodes) && NoSelfRename(nodes)
    requires !SchemaAccepts(schema, StaticNames(nodes, role))
    ensures CandidateOf(env, page, nodes, role, schema).None?
  {
    if RunNodes(env, page, nodes, role).Some? {
      RuntimeNames(env, page, nodes, role);
      NamesStayBelow(nodes, role);
      if CandidateOf(env, page, nodes, role, schema).Some? {
        PreparedFits(env.formats, schema, RunNodes(env, page, nodes, role).value);
      }
    }
  }

  // ----- Exactly what a self-rename costs ---------------------------------------------------------------

  /**
   The fields that were renamed to themselves and not written since, by their present promised name: what the
   static check still counts on after one more operation.
   */
  function LoseStep(run: set<string>, lost: set<string>, o: Operation): set<string> {
    var field, to := Trim(o.field), Trim(o.to);
    match o.op
    case Rename =>
      if field in run then (if field == to then lost + {field} else lost - {to})
      else if field in lost then lost - {field} + (if to in run then {} else {to})
      else lost
    case Delete => lost - {field}
    case Set => lost - {field}
    case Default => lost - {field}
    case _ => lost
  }

  function LoseOps(run: set<string>, lost: set<string>, ops: seq<Operation>): set<string> {
    if ops == [] then lost
    else
      var front := ops[..|ops| - 1];
      LoseStep(RunOps(run, front), LoseOps(run, lost, front), ops[|ops| - 1])
  }

  function LostNames(nodes: seq<Node>, role: string): set<string> {
    if nodes == [] then {}
    else
      var front, last := nodes[..|nodes| - 1], nodes[|nodes| - 1];
      if Applies(last, role) && last.body.Transform?
          then LoseOps(RunNames(front, role), LostNames(front, role), last.body.operations)
      else LostNames(front, role)
  }

  lemma LoseStepAccounts(run: set<string>, lost: set<string>, o: Operation)
    requires run !! lost
    ensures RunStep(run, o) !! LoseStep(run, lost, o)
    ensures StaticStep(run + lost, o) == RunStep(run, o) + LoseStep(run, lost, o)
  {
  }

  lemma {:induction false} LoseOpsAccounts(run: set<string>, lost: set<string>, ops: seq<Operation>)
    requires run !! lost
    ensures RunOps(run, ops) !! LoseOps(run, lost, ops)
    ensures StaticOps(run + lost, ops) == RunOps(run, ops) + LoseOps(run, lost, ops)
  {
    if ops != [] {
      var front := ops[..|ops| - 1];
      LoseOpsAccounts(run, lost, front);
      LoseStepAccounts(RunOps(run, front), LoseOps(run, lost, front), ops[|ops| - 1]);
    }
  }

  /** The names that the static check promises and run time does not deliver are exactly the lost ones. */
  lemma {:induction false} PromisesBroken(nodes: seq<Node>, role: string)
    requires ExtractsFirst(nodes)
    ensures RunNames(nodes, role) !! LostNames(nodes, role)
    ensures StaticNames(nodes, role) == RunNames(nodes, role) + LostNames(nodes, role)
  {
    var front, last := nodes[..|nodes| - 1], nodes[|nodes| - 1];
    if front == [] {
      assert StaticNames(front, role) == {} && RunNames(front, role) == {} && LostNames(front, role) == {};
    } else {
      assert ExtractsFirst(front);
      PromisesBroken(front, role);
      if last.body.Transform? {
        LoseOpsAccounts(RunNames(front, role), LostNames(front, role), last.body.operations);
      }
    }
  }

  /** An accepted definition delivers all promised names exactly if it has lost none. */
  lemma NamesFitIff<Page>(env: Env<Page>, page: Page, nodes: seq<Node>, role: string)
    requires ExtractsFirst(nodes) && RunNodes(env, page, nodes, role).Some?
    ensures RunNodes(env, page, nodes, role).value.Keys == StaticNames(nodes, role) <==> LostNames(nodes, role) == {}
  {
    RuntimeNames(env, page, nodes, role);
    PromisesBroken(nodes, role);
  }

  // ----- Why the condition is needed ---------------------------------------------------------------------

  const ONE_FIELD := Schema(1, ["a"], true, [Field("a", StringKind, true, false)])

  function Renaming(from: string, to: string): seq<Node> {
    [Node(Extract(["a"]), None), Node(Transform([Operation(Rename, from, to, "", Null)]), None)]
  }

  lemma RenamingNames(from: string, to: string)
    ensures StaticNames(Renaming(from, to), "trigger") == StaticStep({"a"}, Operation(Rename, from, to, "", Null))
    ensures RunNames(Renaming(from, to), "trigger") == RunStep({"a"}, Operation(Rename, from, to, "", Null))
  {
    var nodes, o := Renaming(from, to), Operation(Rename, from, to, "", Null);
    assert nodes[..1] == [nodes[0]] && nodes[..1][..0] == [] && ["a"][0] == "a";
    assert FieldSet(["a"]) == {"a"};
    assert StaticNames(nodes[..1], "trigger") == {"a"} && RunNames(nodes[..1], "trigger") == {"a"};
    OneOp({"a"}, o);
  }

  lemma OneOp(names: set<string>, o: Operation)
    ensures StaticOps(names, [o]) == StaticStep(names, o) && RunOps(names, [o]) == RunStep(names, o)
  {
    hide StaticStep, RunStep;
    assert [o][..0] == [];
    assert StaticOps(names, []) == names && RunOps(names, []) == names;
  }

  /** A field renamed to itself passes the static check, yet no page yields a candidate: the key field is gone. */
  lemma SelfRenameLosesTheKey<Page>(env: Env<Page>, page: Page)
    ensures ExtractsFirst(Renaming("a", "a")) && SchemaAccepts(ONE_FIELD, StaticNames(Renaming("a", "a"), "trigger"))
    ensures CandidateOf(env, page, Renaming("a", "a"), "trigger", ONE_FIELD).None?
  {
    RenamingNames("a", "a");
    OneFieldAccepts();
    TrimTrims("a");
    if RunNodes(env, page, Renaming("a", "a"), "trigger").Some? {
      RuntimeNames(env, page, Renaming("a", "a"), "trigger");
      assert ONE_FIELD.uniqueKey[0] !in RunNodes(env, page, Renaming("a", "a"), "trigger").value;
      if CandidateOf(env, page, Renaming("a", "a"), "trigger", ONE_FIELD).Some? {
        PreparedFits(env.formats, ONE_FIELD, RunNodes(env, page, Renaming("a", "a"), "trigger").value);
      }
    }
  }

  lemma OneFieldAccepts()
    ensures SchemaAccepts(ONE_FIELD, {"a"})
  {
    assert ONE_FIELD.fields[0].key == "a";
  }
}
