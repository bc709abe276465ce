/**
 * The ontology enricher of parser.py (`load_data`, lines 65-108): every graph node's
 * attribute dictionary is reshaped into an output record, with graph-derived fields
 * filtered to the "HP:" namespace and the annotations of the term attached.
 */
module Enricher {
  import opened Results
  import opened Strings
  import Synonyms
  import Xrefs
  import Annotations

  /** The kinds of value a node or output record holds under a key. */
  datatype Value =
    | Text(text: string)
    | Texts(items: seq<string>)
    | Link(link: map<string, string>)
    | Groups(groups: map<string, seq<string>>)
    | Records(records: seq<Annotations.Annotation>)

  /** A node's attribute dictionary, and the output record made from it. */
  type Record = map<string, Value>

  /**
   * A node as the ontology reader and the graph library deliver it: its id, its attributes,
   * its direct predecessors, and the nodes reachable from it along and against the edges
   * (`nx.descendants` and `nx.ancestors`), each in the library's iteration order.
   */
  datatype GraphNode = GraphNode(
    id: string,
    attrs: Record,
    predecessors: seq<string>,
    reachableOut: seq<string>,
    reachableIn: seq<string>)

  /** A relationship string that does not split into exactly two space-separated parts. */
  datatype NodeError = MalformedRelationship(node: string, relationship: string)

  /** Python truthiness of a value: an empty string, list or dictionary is false. */
  predicate Truthy(v: Value)
  {
    match v
    case Text(s) => s != ""
    case Texts(xs) => xs != []
    case Link(m) => m != map[]
    case Groups(g) => g != map[]
    case Records(rs) => rs != []
  }

  /** `rec.get(k)` is truthy. */
  predicate IsSet(rec: Record, k: string)
  {
    k in rec && Truthy(rec[k])
  }

  /** The list attributes the parser iterates over hold lists, as the ontology reader gives them. */
  predicate WellFormed(attrs: Record)
  {
    && ("is_a" in attrs ==> attrs["is_a"].Texts?)
    && ("xref" in attrs ==> attrs["xref"].Texts?)
    && ("synonym" in attrs ==> attrs["synonym"].Texts?)
    && ("relationship" in attrs ==> attrs["relationship"].Texts?)
  }

  function Items(rec: Record, k: string): seq<string>
  {
    if k in rec && rec[k].Texts? then rec[k].items else []
  }

  /** The `synonym` attribute as `get_synonyms` sees it. */
  function SynonymAttr(rec: Record): Option<seq<string>>
  {
    if "synonym" in rec then Some(Items(rec, "synonym")) else None
  }

  // ---------------------------------------------------------------- "HP:" filter

  const HP: string := "HP:"

  /** `[x for x in ids if x.startswith("HP:")]`. */
  function FilterHP(ids: seq<string>): (r: seq<string>)
    ensures forall x | x in r :: HP <= x
    decreases |ids|
  {
    if |ids| == 0 then []
    else (if HP <= ids[0] then [ids[0]] else []) + FilterHP(ids[1..])
  }

  /** The filter keeps exactly the "HP:" identifiers of its input. */
  lemma {:induction false} FilterHPMembers(ids: seq<string>, x: string)
    ensures x in FilterHP(ids) <==> x in ids && HP <= x
    decreases |ids|
  {
    if |ids| > 0 {
      FilterHPMembers(ids[1..], x);
      assert ids == [ids[0]] + ids[1..];
    }
  }

  /** The filter preserves order: it distributes over concatenation. */
  lemma {:induction false} FilterHPAppend(a: seq<string>, b: seq<string>)
    ensures FilterHP(a + b) == FilterHP(a) + FilterHP(b)
    decreases |a|
  {
    if |a| == 0 {
      assert a + b == b;
    } else {
      assert (a + b)[1..] == a[1..] + b;
      FilterHPAppend(a[1..], b);
    }
  }

  /** The filter leaves a list of "HP:" identifiers unchanged. */
  lemma {:induction false} FilterHPKeepsAll(ids: seq<string>)
    requires forall x | x in ids :: HP <= x
    ensures FilterHP(ids) == ids
    decreases |ids|
  {
    if |ids| > 0 {
      assert ids[0] in ids;
      assert forall x | x in ids[1..] :: x in ids;
      FilterHPKeepsAll(ids[1..]);
    }
  }

  // ---------------------------------------------------------------- relationships

  /** parser.py:100-102 for one relationship string `"<predicate> <value>"`. */
  function ParseRelationship(rel: string): Result<(string, map<string, string>), string>
  {
    var parts := Split(rel, ' ');
    if |parts| != 2 then Err(rel)
    else Ok((parts[0], map[Lower(Before(parts[1], ':')) := parts[1]]))
  }

  /** A relationship can be parsed exactly when it holds exactly one space. */
  lemma RelationshipWellFormed(rel: string)
    ensures ParseRelationship(rel).Ok? <==> multiset(rel)[' '] == 1
  {
    SplitCount(rel, ' ');
  }

  /**
   * `"<predicate> <value>"` sets the field `predicate` to `{lower(prefix): value}`, where the
   * prefix is the part of the value before its first colon, or the whole value without one.
   */
  lemma RelationshipOf(pred: string, prefix: string, rest: Option<string>)
    requires ' ' !in pred && ' ' !in prefix && ':' !in prefix
    requires rest.Some? ==> ' ' !in rest.value
    ensures var val := if rest.Some? then prefix + ":" + rest.value else prefix;
      ParseRelationship(pred + " " + val) == Ok((pred, map[Lower(prefix) := val]))
  {
    var val := if rest.Some? then prefix + ":" + rest.value else prefix;
    assert pred + " " + val == pred + [' '] + val;
    assert ' ' !in val;
    JoinSplit([pred, val], ' ');
    assert Join([pred, val], ' ') == pred + [' '] + val;
    if rest.Some? {
      assert val[|prefix|] == ':';
      var r := Before(val, ':');
      assert r == val[..|r|] && prefix == val[..|prefix|];
    }
  }

  /** The fields the relationships set, skipping malformed ones; a later predicate wins. */
  function Links(rels: seq<string>): map<string, map<string, string>>
    decreases |rels|
  {
    if |rels| == 0 then map[]
    else
      var m := Links(rels[..|rels| - 1]);
      match ParseRelationship(rels[|rels| - 1])
      case Err(_) => m
      case Ok((p, link)) => m[p := link]
  }

  /** A field is set exactly when some relationship names that predicate. */
  lemma {:induction false} LinksKeys(rels: seq<string>, p: string)
    ensures p in Links(rels) <==> exists j | 0 <= j < |rels| :: ParseRelationship(rels[j]).Ok? && ParseRelationship(rels[j]).value.0 == p
    decreases |rels|
  {
    if |rels| > 0 {
      var init := rels[..|rels| - 1];
      LinksKeys(init, p);
      assert forall j | 0 <= j < |init| :: init[j] == rels[j];
    }
  }

  /** The last relationship with a predicate decides that field. */
  lemma {:induction false} LinksLastWins(rels: seq<string>, j: nat, p: string, link: map<string, string>)
    requires j < |rels| && ParseRelationship(rels[j]) == Ok((p, link))
    requires forall k | j < k < |rels| :: !(ParseRelationship(rels[k]).Ok? && ParseRelationship(rels[k]).value.0 == p)
    ensures p in Links(rels) && Links(rels)[p] == link
    decreases |rels|
  {
    if j < |rels| - 1 {
      var init := rels[..|rels| - 1];
      assert forall k | j < k < |init| :: init[k] == rels[k];
      LinksLastWins(init, j, p, link);
    }
  }

  /** The record with the fields of `links` set over those of `rec`. */
  function Override(rec: Record, links: map<string, map<string, string>>): Record
  {
    rec + map p | p in links :: Link(links[p])
  }

  /** A relationship string splits into exactly two space-separated parts. */
  predicate TwoParts(rel: string)
  {
    |Split(rel, ' ')| == 2
  }

  /** `rels[i]` is the first relationship that does not split into exactly two parts. */
  predicate FirstMalformed(rels: seq<string>, i: int)
  {
    0 <= i < |rels| && !TwoParts(rels[i]) && forall j | 0 <= j < i :: TwoParts(rels[j])
  }

  /** Some relationship of the node fails to split into exactly two parts. */
  predicate HasMalformedRelationship(attrs: Record)
  {
    IsSet(attrs, "relationship") &&
    exists i | 0 <= i < |Items(attrs, "relationship")| :: !TwoParts(Items(attrs, "relationship")[i])
  }

  /** The predicates whose fields the relationships set. */
  function Predicates(attrs: Record): set<string>
  {
    if IsSet(attrs, "relationship") then Links(Items(attrs, "relationship")).Keys else {}
  }

  // ---------------------------------------------------------------- record shape

  predicate Has(rec: Record, k: string, v: Value)
  {
    k in rec && rec[k] == v
  }

  /** `rec` and `attrs` agree on key `k`: both lack it, or both hold the same value. */
  predicate Same(rec: Record, attrs: Record, k: string)
  {
    (k in rec <==> k in attrs) && (k in attrs ==> rec[k] == attrs[k])
  }

  /**
   * What parser.py:69-97 leaves under key `k` of node `node`'s record: `_id` and `hp` hold the
   * node id; a truthy `is_a` is removed and `parents` holds its "HP:" entries; a truthy `xref`
   * is removed and `xrefs` holds its normalised groups; `children`, `ancestors` and
   * `descendants` hold the "HP:" part of the graph's answers; `synonym` holds the synonym
   * dictionary; a truthy `created_by` or `creation_date` is removed; every other key, and
   * every key whose condition is false, is as in the node's attributes.
   */
  ghost predicate KeyShaped(node: GraphNode, rec: Record, k: string)
  {
    var a := node.attrs;
    if k == "_id" || k == "hp" then Has(rec, k, Text(node.id))
    else if k == "is_a" || k == "xref" || k == "created_by" || k == "creation_date" then
      if IsSet(a, k) then k !in rec else Same(rec, a, k)
    else if k == "parents" then
      if IsSet(a, "is_a") then Has(rec, k, Texts(FilterHP(Items(a, "is_a")))) else Same(rec, a, k)
    else if k == "xrefs" then
      if IsSet(a, "xref") then k in rec && rec[k].Groups? && Xrefs.Normalised(rec[k].groups, Items(a, "xref"))
      else Same(rec, a, k)
    else if k == "children" then Has(rec, k, Texts(FilterHP(node.predecessors)))
    else if k == "ancestors" then Has(rec, k, Texts(FilterHP(node.reachableOut)))
    else if k == "descendants" then Has(rec, k, Texts(FilterHP(node.reachableIn)))
    else if k == "synonym" then Has(rec, k, Groups(Synonyms.SynonymGroups(SynonymAttr(a))))
    else Same(rec, a, k)
  }

  /** The annotation table has a non-empty list for `id`. */
  predicate Attached(table: Annotations.Table, id: string)
  {
    id in table && table[id] != []
  }

  /**
   * What parser.py:69-106 leaves under key `k` of the output record: `annotations` holds the
   * table's list for the node when it is non-empty (set last); a truthy `relationship` is
   * removed; a key some relationship names holds the last such relationship's link; any
   * other key is as `KeyShaped` describes.
   */
  ghost predicate OutKeyShaped(node: GraphNode, table: Annotations.Table, out: Record, k: string)
  {
    var a := node.attrs;
    if k == "annotations" && Attached(table, node.id) then Has(out, k, Records(table[node.id]))
    else if k == "relationship" && IsSet(a, k) then k !in out
    else if k in Predicates(a) then Has(out, k, Link(Links(Items(a, "relationship"))[k]))
    else KeyShaped(node, out, k)
  }

  /** The whole output record for `node` with annotation table `table`. */
  ghost predicate Reshaped(node: GraphNode, table: Annotations.Table, out: Record)
  {
    forall k :: OutKeyShaped(node, table, out, k)
  }

  /** Whether a key is shaped depends only on what the record holds under that key. */
  lemma KeyShapedLocal(node: GraphNode, rec: Record, rec': Record, k: string)
    requires KeyShaped(node, rec, k) && Same(rec', rec, k)
    ensures KeyShaped(node, rec', k)
  {
  }

  /** The record after one more well-formed relationship. */
  lemma OverrideStep(rec: Record, rels: seq<string>, i: nat)
    requires i < |rels| && |Split(rels[i], ' ')| == 2
    ensures var parts := Split(rels[i], ' ');
      Override(rec, Links(rels[..i + 1]))
        == Override(rec, Links(rels[..i]))[parts[0] := Link(map[Lower(Before(parts[1], ':')) := parts[1]])]
  {
    assert rels[..i + 1][..i] == rels[..i];
    var parts := Split(rels[i], ' ');
    var links := Links(rels[..i]);
    var link := map[Lower(Before(parts[1], ':')) := parts[1]];
    assert Links(rels[..i + 1]) == links[parts[0] := link];
    assert Override(rec, links[parts[0] := link]) == Override(rec, links)[parts[0] := Link(link)];
  }

  /** `out` agrees with `rec` on every key outside `keys`. */
  ghost predicate SameOutside(out: Record, rec: Record, keys: set<string>)
  {
    forall k | k !in keys :: Same(out, rec, k)
  }

  /** parser.py:69-70: `_id` and `hp` are set to the node id. */
  method StampIds(rec: Record, id: string) returns (out: Record)
    ensures Has(out, "_id", Text(id)) && Has(out, "hp", Text(id))
    ensures SameOutside(out, rec, {"_id", "hp"})
  {
    out := rec["_id" := Text(id)];
    out := out["hp" := Text(id)];
  }

  /** parser.py:71-72: a truthy `is_a` is replaced by the "HP:" entries, as `parents`. */
  method SetParents(rec: Record) returns (out: Record)
    requires "is_a" in rec ==> rec["is_a"].Texts?
    ensures IsSet(rec, "is_a") ==> "is_a" !in out && Has(out, "parents", Texts(FilterHP(Items(rec, "is_a"))))
    ensures !IsSet(rec, "is_a") ==> out == rec
    ensures SameOutside(out, rec, {"is_a", "parents"})
  {
    out := rec;
    if IsSet(out, "is_a") {
      var isA := out["is_a"].items;
      out := out - {"is_a"};
      out := out["parents" := Texts(FilterHP(isA))];
    }
  }

  /** parser.py:73-89: a truthy `xref` is replaced by its normalised groups, as `xrefs`. */
  method SetXrefs(rec: Record) returns (out: Record)
    requires "xref" in rec ==> rec["xref"].Texts?
    ensures IsSet(rec, "xref") ==>
      && "xref" !in out && "xrefs" in out && out["xrefs"].Groups?
      && Xrefs.Normalised(out["xrefs"].groups, Items(rec, "xref"))
    ensures !IsSet(rec, "xref") ==> out == rec
    ensures SameOutside(out, rec, {"xref", "xrefs"})
  {
    out := rec;
    if IsSet(out, "xref") {
      var xrefs := Xrefs.NormaliseXrefs(out["xref"].items);
      out := out - {"xref"};
      out := out["xrefs" := Groups(xrefs)];
    }
  }

  /** parser.py:90-92: the "HP:" parts of the graph's predecessor and reachability answers. */
  method SetGraphFields(rec: Record, node: GraphNode) returns (out: Record)
    ensures Has(out, "children", Texts(FilterHP(node.predecessors)))
    ensures Has(out, "ancestors", Texts(FilterHP(node.reachableOut)))
    ensures Has(out, "descendants", Texts(FilterHP(node.reachableIn)))
    ensures SameOutside(out, rec, {"children", "ancestors", "descendants"})
  {
    out := rec["children" := Texts(FilterHP(node.predecessors))];
    out := out["ancestors" := Texts(FilterHP(node.reachableOut))];
    out := out["descendants" := Texts(FilterHP(node.reachableIn))];
  }

  /** parser.py:93: `synonym` becomes the synonym dictionary, empty when there was none. */
  method SetSynonyms(rec: Record) returns (out: Record)
    requires "synonym" in rec ==> rec["synonym"].Texts?
    ensures Has(out, "synonym", Groups(Synonyms.SynonymGroups(SynonymAttr(rec))))
    ensures SameOutside(out, rec, {"synonym"})
  {
    var synonyms := Synonyms.GetSynonyms(if "synonym" in rec then Some(rec["synonym"].items) else None);
    out := rec["synonym" := Groups(synonyms)];
  }

  /** parser.py:94-97: a truthy `created_by` or `creation_date` is removed. */
  method DropProvenance(rec: Record) returns (out: Record)
    ensures IsSet(rec, "created_by") ==> "created_by" !in out
    ensures !IsSet(rec, "created_by") ==> Same(out, rec, "created_by")
    ensures IsSet(rec, "creation_date") ==> "creation_date" !in out
    ensures !IsSet(rec, "creation_date") ==> Same(out, rec, "creation_date")
    ensures SameOutside(out, rec, {"created_by", "creation_date"})
  {
    out := rec;
    if IsSet(out, "created_by") {
      out := out - {"created_by"};
    }
    if IsSet(out, "creation_date") {
      out := out - {"creation_date"};
    }
  }

  // The parts of the record shape each step establishes, stated against the node's attributes.

  ghost predicate IdsDone(node: GraphNode, rec: Record)
  {
    Has(rec, "_id", Text(node.id)) && Has(rec, "hp", Text(node.id))
  }

  ghost predicate ParentsDone(node: GraphNode, rec: Record)
  {
    var a := node.attrs;
    if IsSet(a, "is_a") then "is_a" !in rec && Has(rec, "parents", Texts(FilterHP(Items(a, "is_a"))))
    else Same(rec, a, "is_a") && Same(rec, a, "parents")
  }

  ghost predicate XrefsDone(node: GraphNode, rec: Record)
  {
    var a := node.attrs;
    if IsSet(a, "xref") then
      "xref" !in rec && "xrefs" in rec && rec["xrefs"].Groups? && Xrefs.Normalised(rec["xrefs"].groups, Items(a, "xref"))
    else Same(rec, a, "xref") && Same(rec, a, "xrefs")
  }

  ghost predicate GraphDone(node: GraphNode, rec: Record)
  {
    && Has(rec, "children", Texts(FilterHP(node.predecessors)))
    && Has(rec, "ancestors", Texts(FilterHP(node.reachableOut)))
    && Has(rec, "descendants", Texts(FilterHP(node.reachableIn)))
  }

  ghost predicate SynonymsDone(node: GraphNode, rec: Record)
  {
    Has(rec, "synonym", Groups(Synonyms.SynonymGroups(SynonymAttr(node.attrs))))
  }

  ghost predicate ProvenanceDone(node: GraphNode, rec: Record)
  {
    var a := node.attrs;
    && (if IsSet(a, "created_by") then "created_by" !in rec else Same(rec, a, "created_by"))
    && (if IsSet(a, "creation_date") then "creation_date" !in rec else Same(rec, a, "creation_date"))
  }

  lemma AfterParents(node: GraphNode, r1: Record, r2: Record)
    requires IdsDone(node, r1) && SameOutside(r1, node.attrs, {"_id", "hp"})
    requires IsSet(r1, "is_a") ==> "is_a" !in r2 && Has(r2, "parents", Texts(FilterHP(Items(r1, "is_a"))))
    requires !IsSet(r1, "is_a") ==> r2 == r1
    requires SameOutside(r2, r1, {"is_a", "parents"})
    ensures IdsDone(node, r2) && ParentsDone(node, r2)
    ensures SameOutside(r2, node.attrs, {"_id", "hp", "is_a", "parents"})
  {
    var a := node.attrs;
    assert Same(r1, a, "is_a") && Same(r1, a, "parents");
    assert Same(r2, r1, "_id") && Same(r2, r1, "hp");
    forall k | k !in {"_id", "hp", "is_a", "parents"} ensures Same(r2, a, k) {
      assert Same(r1, a, k) && Same(r2, r1, k);
    }
  }

  lemma AfterXrefs(node: GraphNode, r2: Record, r3: Record)
    requires IdsDone(node, r2) && ParentsDone(node, r2)
    requires SameOutside(r2, node.attrs, {"_id", "hp", "is_a", "parents"})
    requires IsSet(r2, "xref") ==>
      && "xref" !in r3 && "xrefs" in r3 && r3["xrefs"].Groups?
      && Xrefs.Normalised(r3["xrefs"].groups, Items(r2, "xref"))
    requires !IsSet(r2, "xref") ==> r3 == r2
    requires SameOutside(r3, r2, {"xref", "xrefs"})
    ensures IdsDone(node, r3) && ParentsDone(node, r3) && XrefsDone(node, r3)
    ensures SameOutside(r3, node.attrs, {"_id", "hp", "is_a", "parents", "xref", "xrefs"})
  {
    var a := node.attrs;
    assert Same(r2, a, "xref") && Same(r2, a, "xrefs");
    assert Same(r3, r2, "_id") && Same(r3, r2, "hp") && Same(r3, r2, "is_a") && Same(r3, r2, "parents");
    forall k | k !in {"_id", "hp", "is_a", "parents", "xref", "xrefs"} ensures Same(r3, a, k) {
      assert Same(r2, a, k) && Same(r3, r2, k);
    }
  }

  lemma AfterGraph(node: GraphNode, r3: Record, r4: Record)
    requires IdsDone(node, r3) && ParentsDone(node, r3) && XrefsDone(node, r3)
    requires SameOutside(r3, node.attrs, {"_id", "hp", "is_a", "parents", "xref", "xrefs"})
    requires GraphDone(node, r4)
    requires SameOutside(r4, r3, {"children", "ancestors", "descendants"})
    ensures IdsDone(node, r4) && ParentsDone(node, r4) && XrefsDone(node, r4) && GraphDone(node, r4)
    ensures SameOutside(r4, node.attrs, {"_id", "hp", "is_a", "parents", "xref", "xrefs", "children", "ancestors", "descendants"})
  {
    var a := node.attrs;
    assert Same(r4, r3, "_id") && Same(r4, r3, "hp") && Same(r4, r3, "is_a") && Same(r4, r3, "parents");
    assert Same(r4, r3, "xref") && Same(r4, r3, "xrefs");
    forall k | k !in {"_id", "hp", "is_a", "parents", "xref", "xrefs", "children", "ancestors", "descendants"}
      ensures Same(r4, a, k)
    {
      assert Same(r3, a, k) && Same(r4, r3, k);
    }
  }

  /** The keys the reshaping touches, other than the last two, before the provenance step. */
  const STAGED: set<string> := {
    "_id", "hp", "is_a", "parents", "xref", "xrefs", "children", "ancestors", "descendants", "synonym" }

  lemma AfterSynonyms(node: GraphNode, r4: Record, r5: Record)
    requires IdsDone(node, r4) && ParentsDone(node, r4) && XrefsDone(node, r4) && GraphDone(node, r4)
    requires SameOutside(r4, node.attrs, {"_id", "hp", "is_a", "parents", "xref", "xrefs", "children", "ancestors", "descendants"})
    requires Has(r5, "synonym", Groups(Synonyms.SynonymGroups(SynonymAttr(r4))))
    requires SameOutside(r5, r4, {"synonym"})
    ensures IdsDone(node, r5) && ParentsDone(node, r5) && XrefsDone(node, r5) && GraphDone(node, r5)
    ensures SynonymsDone(node, r5)
    ensures SameOutside(r5, node.attrs, STAGED)
  {
    var a := node.attrs;
    assert Same(r4, a, "synonym");
    assert Same(r5, r4, "_id") && Same(r5, r4, "hp") && Same(r5, r4, "is_a") && Same(r5, r4, "parents");
    assert Same(r5, r4, "xref") && Same(r5, r4, "xrefs");
    assert Same(r5, r4, "children") && Same(r5, r4, "ancestors") && Same(r5, r4, "descendants");
    forall k | k !in STAGED ensures Same(r5, a, k) {
      assert Same(r4, a, k) && Same(r5, r4, k);
    }
  }

  lemma AfterProvenance(node: GraphNode, r5: Record, rec: Record)
    requires IdsDone(node, r5) && ParentsDone(node, r5) && XrefsDone(node, r5) && GraphDone(node, r5)
    requires SynonymsDone(node, r5)
    requires SameOutside(r5, node.attrs, STAGED)
    requires IsSet(r5, "created_by") ==> "created_by" !in rec
    requires !IsSet(r5, "created_by") ==> Same(rec, r5, "created_by")
    requires IsSet(r5, "creation_date") ==> "creation_date" !in rec
    requires !IsSet(r5, "creation_date") ==> Same(rec, r5, "creation_date")
    requires SameOutside(rec, r5, {"created_by", "creation_date"})
    ensures forall k :: KeyShaped(node, rec, k)
  {
    var a := node.attrs;
    assert Same(r5, a, "created_by") && Same(r5, a, "creation_date");
    assert Same(rec, r5, "_id") && Same(rec, r5, "hp") && Same(rec, r5, "is_a") && Same(rec, r5, "parents");
    assert Same(rec, r5, "xref") && Same(rec, r5, "xrefs");
    assert Same(rec, r5, "children") && Same(rec, r5, "ancestors") && Same(rec, r5, "descendants");
    assert Same(rec, r5, "synonym");
    assert IdsDone(node, rec) && ParentsDone(node, rec) && XrefsDone(node, rec) && GraphDone(node, rec);
    assert SynonymsDone(node, rec) && ProvenanceDone(node, rec);
    forall k ensures KeyShaped(node, rec, k) {
      if k !in STAGED && k != "created_by" && k != "creation_date" {
        assert Same(r5, a, k) && Same(rec, r5, k);
      }
    }
  }

  /** parser.py:69-97: every step of the reshaping before the relationships, in order. */
  method ReshapeAttributes(node: GraphNode) returns (rec: Record)
    requires WellFormed(node.attrs)
    ensures forall k :: KeyShaped(node, rec, k)
  {
    var r1 := StampIds(node.attrs, node.id);
    assert Same(r1, node.attrs, "is_a");
    var r2 := SetParents(r1);
    AfterParents(node, r1, r2);
    assert Same(r2, node.attrs, "xref");
    var r3 := SetXrefs(r2);
    AfterXrefs(node, r2, r3);
    var r4 := SetGraphFields(r3, node);
    AfterGraph(node, r3, r4);
    assert Same(r4, node.attrs, "synonym");
    var r5 := SetSynonyms(r4);
    AfterSynonyms(node, r4, r5);
    rec := DropProvenance(r5);
    AfterProvenance(node, r5, rec);
  }

  /**
   * parser.py:98-103: sets one field per relationship, later ones overwriting earlier ones,
   * then removes `relationship`; stops at the first relationship that does not split into
   * exactly two parts.
   */
  method ApplyRelationships(rec: Record, rels: seq<string>) returns (r: Result<Record, string>)
    ensures r.Err? <==> exists i | 0 <= i < |rels| :: !TwoParts(rels[i])
    ensures r.Err? ==> exists i :: FirstMalformed(rels, i) && r.error == rels[i]
    ensures r.Ok? ==> r.value == Override(rec, Links(rels)) - {"relationship"}
  {
    var out := rec;
    for i := 0 to |rels|
      invariant forall j | 0 <= j < i :: TwoParts(rels[j])
      invariant out == Override(rec, Links(rels[..i]))
    {
      var parts := Split(rels[i], ' ');
      if |parts| != 2 {
        return Err(rels[i]);
      }
      OverrideStep(rec, rels, i);
      out := out[parts[0] := Link(map[Lower(Before(parts[1], ':')) := parts[1]])];
    }
    assert rels[..|rels|] == rels;
    r := Ok(out - {"relationship"});
  }

  /** The step after the relationships: a non-empty annotation list is attached. */
  lemma Assemble(node: GraphNode, table: Annotations.Table, mid: Record, linked: Record, out: Record)
    requires forall k :: KeyShaped(node, mid, k)
    requires IsSet(node.attrs, "relationship") ==>
      linked == Override(mid, Links(Items(node.attrs, "relationship"))) - {"relationship"}
    requires !IsSet(node.attrs, "relationship") ==> linked == mid
    requires Attached(table, node.id) ==> out == linked["annotations" := Records(table[node.id])]
    requires !Attached(table, node.id) ==> out == linked
    ensures Reshaped(node, table, out)
  {
    var a := node.attrs;
    forall k ensures OutKeyShaped(node, table, out, k) {
      if k == "annotations" && Attached(table, node.id) {
      } else if k == "relationship" && IsSet(a, k) {
      } else if k in Predicates(a) {
      } else {
        assert Same(out, mid, k);
        KeyShapedLocal(node, mid, out, k);
      }
    }
  }

  /**
   * parser.py:67-106 for one node: the reshaped record, or the error of the first
   * relationship that does not split into exactly two parts.
   */
  method Transform(node: GraphNode, table: Annotations.Table) returns (r: Result<Record, NodeError>)
    requires WellFormed(node.attrs)
    ensures r.Err? <==> HasMalformedRelationship(node.attrs)
    ensures r.Err? ==> r.error.node == node.id
    ensures r.Err? ==> exists i :: FirstMalformed(Items(node.attrs, "relationship"), i) && r.error.relationship == Items(node.attrs, "relationship")[i]
    ensures r.Ok? ==> Reshaped(node, table, r.value)
  {
    var mid := ReshapeAttributes(node);
    assert KeyShaped(node, mid, "relationship");
    var linked := mid;
    if IsSet(mid, "relationship") {
      assert IsSet(node.attrs, "relationship") && Items(node.attrs, "relationship") == mid["relationship"].items;
      var applied := ApplyRelationships(mid, mid["relationship"].items);
      if applied.Err? {
        return Err(MalformedRelationship(node.id, applied.error));
      }
      linked := applied.value;
    }
    var out := linked;
    if Attached(table, node.id) {
      out := out["annotations" := Records(table[node.id])];
    }
    Assemble(node, table, mid, linked, out);
    r := Ok(out);
  }

  /**
   * In an output record, the field a well-formed relationship names holds that
   * relationship's link when no later relationship names the same predicate, unless the
   * field is `relationship` itself or the annotations attached afterwards.
   */
  lemma {:induction false} RelationshipFieldWins(node: GraphNode, table: Annotations.Table, out: Record, j: nat)
    requires Reshaped(node, table, out) && IsSet(node.attrs, "relationship")
    requires var rels := Items(node.attrs, "relationship");
      && j < |rels| && ParseRelationship(rels[j]).Ok?
      && forall k | j < k < |rels| :: !(ParseRelationship(rels[k]).Ok? && ParseRelationship(rels[k]).value.0 == ParseRelationship(rels[j]).value.0)
    requires var p := ParseRelationship(Items(node.attrs, "relationship")[j]).value.0;
      p != "relationship" && !(p == "annotations" && Attached(table, node.id))
    ensures var (p, link) := ParseRelationship(Items(node.attrs, "relationship")[j]).value;
      p in out && out[p] == Link(link)
  {
    var rels := Items(node.attrs, "relationship");
    var (p, link) := ParseRelationship(rels[j]).value;
    LinksKeys(rels, p);
    LinksLastWins(rels, j, p, link);
    assert OutKeyShaped(node, table, out, p);
  }

  /**
   * In an output record, `_id` and `hp` both hold the node id, unless a relationship names
   * one of them as its predicate.
   */
  lemma OutputIds(node: GraphNode, table: Annotations.Table, out: Record)
    requires Reshaped(node, table, out)
    requires "_id" !in Predicates(node.attrs) && "hp" !in Predicates(node.attrs)
    ensures "_id" in out && "hp" in out && out["_id"] == out["hp"] == Text(node.id)
  {
    assert OutKeyShaped(node, table, out, "_id") && OutKeyShaped(node, table, out, "hp");
  }

  /**
   * In an output record, `children`, `ancestors`, `descendants`, and `parents` when `is_a`
   * was truthy, list only "HP:" identifiers, unless a relationship names that field.
   */
  lemma OutputNamespace(node: GraphNode, table: Annotations.Table, out: Record, k: string)
    requires Reshaped(node, table, out) && k !in Predicates(node.attrs)
    requires k == "children" || k == "ancestors" || k == "descendants" || (k == "parents" && IsSet(node.attrs, "is_a"))
    ensures k in out && out[k].Texts? && forall x | x in out[k].items :: HP <= x
  {
    assert OutKeyShaped(node, table, out, k);
  }

  /** Why `load_data` stopped early. */
  datatype Failure = LoadFailed(load: Annotations.LoadError) | NodeFailed(node: NodeError)

  /**
   * parser.py:38-108: builds the annotation table from the lines of the annotation file,
   * then yields the record of each node in turn, stopping at the first error.
   */
  method LoadData(lines: seq<string>, nodes: seq<GraphNode>) returns (records: seq<Record>, failure: Option<Failure>)
    requires forall i | 0 <= i < |nodes| :: WellFormed(nodes[i].attrs)
    ensures Annotations.AnnotationTable(lines).Err? ==>
      records == [] && failure == Some(LoadFailed(Annotations.AnnotationTable(lines).error))
    ensures Annotations.AnnotationTable(lines).Ok? ==>
      var table := Annotations.AnnotationTable(lines).value;
      && |records| <= |nodes|
      && (forall i | 0 <= i < |records| :: Reshaped(nodes[i], table, records[i]))
      && (forall i | 0 <= i < |records| :: !HasMalformedRelationship(nodes[i].attrs))
      && (failure.None? <==> |records| == |nodes|)
      && (failure.Some? ==>
            && |records| < |nodes|
            && HasMalformedRelationship(nodes[|records|].attrs)
            && failure.value.NodeFailed? && failure.value.node.node == nodes[|records|].id)
  {
    var loaded := Annotations.LoadAnnotations(lines);
    if loaded.Err? {
      return [], Some(LoadFailed(loaded.error));
    }
    var table := loaded.value;
    records := [];
    for i := 0 to |nodes|
      invariant |records| == i
      invariant forall j | 0 <= j < i :: Reshaped(nodes[j], table, records[j])
      invariant forall j | 0 <= j < i :: !HasMalformedRelationship(nodes[j].attrs)
    {
      var r := Transform(nodes[i], table);
      if r.Err? {
        return records, Some(NodeFailed(r.error));
      }
      records := records + [r.value];
    }
    failure := None;
  }
}
