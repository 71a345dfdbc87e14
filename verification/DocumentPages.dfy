/**
 A fetched document as the pages that candidates are extracted from: the document itself or, if the definition
 names a path into its JSON, the objects of the array found there.
 */
module DocumentPages {
  import opened Common
  import opened Json
  import opened JsonPath
  import opened RecordModel
  import opened FieldFlow
  import RecordLog

  const MOST_ITEMS := 1000

  /** An array of objects, neither empty nor too long. */
  predicate Splittable(v: Json) {
    v.Arr? && 1 <= |v.items| <= 1000 && forall i :: 0 <= i < |v.items| ==> v.items[i].Obj?
  }

  /** The array that the path leads to. */
  method SplitItems(root: Json, path: string) returns (items: Option<seq<Json>>)
    ensures forall steps: seq<Step> {:trigger Spell(steps)} :: AllWellSpelled(steps) && Spell(steps) == Trim(path) ==>
              items == if Splittable(Follow(root, steps)) then Some(Follow(root, steps).items) else None
    ensures items.Some? ==> exists steps: seq<Step> :: AllWellSpelled(steps) && Spell(steps) == Trim(path)
  {
    var value := JsonPathValue(root, path);
    if value.None? || !value.value.Arr? {
      return None;
    }
    var found := value.value.items;
    if |found| == 0 || |found| > MOST_ITEMS {
      return None;
    }
    for i := 0 to |found|
      invariant forall j :: 0 <= j < i ==> found[j].Obj?
    {
      if !found[i].Obj? {
        return None;
      }
    }
    items := Some(found);
  }

  /** How the document is divided; `root` is its parsed JSON, if it is JSON, and `page` a page of one item. */
  ghost predicate Divides<Page>(document: Page, root: Option<Json>, path: Option<string>, page: Json -> Page,
                                pages: seq<Page>) {
    match path
    case None => pages == [document]
    case Some(p) => root.Some? && exists steps: seq<Step> ::
      && AllWellSpelled(steps) && Spell(steps) == Trim(p) && Splittable(Follow(root.value, steps))
      && pages == seq(|Follow(root.value, steps).items|, i requires 0 <= i < |Follow(root.value, steps).items| =>
                        page(Follow(root.value, steps).items[i]))
  }

  /** The candidates of a document: of all its pages, or none if it cannot be divided or a page yields none. */
  method TraceDocument<Page>(env: Env<Page>, document: Page, root: Option<Json>, path: Option<string>,
                             page: Json -> Page,
                             nodes: seq<Node>, role: string, schema: Schema)
                               returns (candidates: Option<seq<Candidate>>)
    ensures forall pages :: Divides(document, root, path, page, pages) ==>
              candidates == if SchemaAccepts(schema, StaticNames(nodes, role))
                  then CandidatesOf(env, pages, nodes, role, schema) else None
    ensures candidates.Some? ==> exists pages :: Divides(document, root, path, page, pages)
    ensures candidates.Some? ==> 1 <= |candidates.value| <= RecordLog.LARGEST_BATCH
  {
    var pages := [document];
    if path.Some? {
      if root.None? {
        return None;
      }
      var items := SplitItems(root.value, path.value);
      if items.None? {
        return None;
      }
      pages := seq(|items.value|, i requires 0 <= i < |items.value| => page(items.value[i]));
    }
    assert Divides(document, root, path, page, pages);
    candidates := TraceRecordCandidates(env, pages, nodes, role, schema);
    OneForEachPage(env, pages, nodes, role, schema);
  }

  /** Every page of a traced document has its candidate. */
  lemma {:induction false} OneForEachPage<Page>(env: Env<Page>, pages: seq<Page>, nodes: seq<Node>, role: string,
                                                schema: Schema)
    ensures CandidatesOf(env, pages, nodes, role, schema).Some? ==>
              |CandidatesOf(env, pages, nodes, role, schema).value| == |pages|
  {
    if pages != [] {
      OneForEachPage(env, pages[..|pages| - 1], nodes, role, schema);
    }
  }
}
