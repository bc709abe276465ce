/**
 * Cross-reference normalisation of parser.py (lines 73-89): each `PREFIX:ID` string is
 * filed under a normalised prefix key, URLs and colon-less entries are skipped, values are
 * deduplicated through sets, and every set is finally turned into a list.
 */
module Xrefs {
  import opened Results
  import opened Strings

  /** Prefixes kept under their lower-cased spelling with the text after the colon. */
  const RECOGNISED: set<string> := {"umls", "snomedct_us", "snomed_ct", "cohd", "ncit"}

  /**
   * The key and value one cross-reference contributes, or `None` when it is skipped.
   * The `http`/`https` and `MSH` tests are case-sensitive; an unrecognised prefix keeps
   * the whole original string as its value.
   */
  function Entry(x: string): Option<(string, string)>
  {
    match SplitOnce(x, ':')
    case None => None
    case Some((prefix, id)) =>
      if prefix == "http" || prefix == "https" then None
      else if Lower(prefix) in RECOGNISED then Some((Lower(prefix), id))
      else if prefix == "MSH" then Some(("mesh", id))
      else Some((Lower(prefix), x))
  }

  /**
   * How `PREFIX:ID` (PREFIX without a colon) is filed: skipped for `http` and `https`,
   * a recognised prefix under its lower-cased name with `ID`, `MSH` under `mesh` with `ID`,
   * any other prefix under its lower-cased name with the whole string.
   */
  lemma EntryOf(prefix: string, id: string)
    requires ':' !in prefix
    ensures prefix == "http" || prefix == "https" ==> Entry(prefix + ":" + id) == None
    ensures prefix != "http" && prefix != "https" && Lower(prefix) in RECOGNISED ==>
      Entry(prefix + ":" + id) == Some((Lower(prefix), id))
    ensures prefix == "MSH" ==> Entry(prefix + ":" + id) == Some(("mesh", id))
    ensures prefix != "http" && prefix != "https" && Lower(prefix) !in RECOGNISED && prefix != "MSH" ==>
      Entry(prefix + ":" + id) == Some((Lower(prefix), prefix + ":" + id))
  {
    SplitOnceJoined(prefix, ':', id);
    assert prefix + ":" + id == prefix + [':'] + id;
    if prefix == "MSH" {
      assert Lower(prefix) == "msh";
    }
  }

  /** An entry is skipped exactly when it has no colon or is an `http:` or `https:` URL. */
  lemma EntrySkipped(x: string)
    ensures Entry(x).None? <==> ':' !in x || "http:" <= x || "https:" <= x
  {
    if "http:" <= x {
      assert x == "http" + [':'] + x[5..];
      SplitOnceJoined("http", ':', x[5..]);
    } else if "https:" <= x {
      assert x == "https" + [':'] + x[6..];
      SplitOnceJoined("https", ':', x[6..]);
    }
  }

  /** `MSH:D001` is filed as `D001` under `mesh`, and so is every `MSH:` identifier. */
  lemma MeshFiled(id: string)
    ensures Entry("MSH:" + id) == Some(("mesh", id))
  {
    assert "MSH:" + id == "MSH" + ":" + id;
    EntryOf("MSH", id);
  }

  /** `UMLS:C001` is filed as `C001` under `umls`, and so is every `UMLS:` identifier. */
  lemma UmlsFiled(id: string)
    ensures Entry("UMLS:" + id) == Some(("umls", id))
  {
    assert "UMLS:" + id == "UMLS" + ":" + id;
    assert Lower("UMLS") == "umls";
    EntryOf("UMLS", id);
  }

  /** A prefix spelling `umls` in any ASCII case is filed under `umls` with the text after the colon. */
  lemma UmlsAnyCase(prefix: string, id: string)
    requires |prefix| == 4 && forall i | 0 <= i < 4 :: SameUpToCase(prefix[i], "umls"[i])
    ensures Entry(prefix + ":" + id) == Some(("umls", id))
  {
    LowerEqualIff(prefix, "umls");
    assert Lower("umls") == "umls";
    assert ':' !in prefix;
    EntryOf(prefix, id);
  }

  /** `msh:D1` fails the case-sensitive `MSH` test and is filed whole under `msh`. */
  lemma LowerMshFiled(id: string)
    ensures Entry("msh:" + id) == Some(("msh", "msh:" + id))
  {
    assert "msh:" + id == "msh" + ":" + id;
    assert Lower("msh") == "msh";
    EntryOf("msh", id);
  }

  /** `http://example.org`, like every `http:` string, is skipped. */
  lemma UrlSkipped(rest: string)
    ensures Entry("http:" + rest) == None
  {
    assert "http:" + rest == "http" + ":" + rest;
    EntryOf("http", rest);
  }

  /** The `defaultdict(set)` after adding the entries of `xs` in order. */
  function XrefTable(xs: seq<string>): (t: map<string, set<string>>)
    ensures forall k | k in t :: t[k] != {}
    decreases |xs|
  {
    if |xs| == 0 then map[]
    else
      var m := XrefTable(xs[..|xs| - 1]);
      match Entry(xs[|xs| - 1])
      case None => m
      case Some((k, v)) => m[k := (if k in m then m[k] else {}) + {v}]
  }

  /** A value is filed under a key exactly when some cross-reference contributes that pair. */
  lemma {:induction false} XrefTableSpec(xs: seq<string>, k: string, v: string)
    ensures (k in XrefTable(xs) && v in XrefTable(xs)[k]) <==> exists i | 0 <= i < |xs| :: Entry(xs[i]) == Some((k, v))
    decreases |xs|
  {
    if |xs| > 0 {
      var init := xs[..|xs| - 1];
      XrefTableSpec(init, k, v);
      assert forall i | 0 <= i < |init| :: init[i] == xs[i];
    }
  }

  /** A key is present exactly when some cross-reference is filed under it. */
  lemma {:induction false} XrefTableKeys(xs: seq<string>, k: string)
    ensures k in XrefTable(xs) <==> exists i | 0 <= i < |xs| :: Entry(xs[i]).Some? && Entry(xs[i]).value.0 == k
    decreases |xs|
  {
    if |xs| > 0 {
      var init := xs[..|xs| - 1];
      XrefTableKeys(init, k);
      assert forall i | 0 <= i < |init| :: init[i] == xs[i];
    }
  }

  predicate Distinct(list: seq<string>)
  {
    forall i, j | 0 <= i < j < |list| :: list[i] != list[j]
  }

  function Elements(list: seq<string>): set<string>
  {
    set v | v in list
  }

  /** Python's `list(v)` on a set: every element once, in an unspecified order. */
  method ListOf(s: set<string>) returns (list: seq<string>)
    ensures Distinct(list) && Elements(list) == s
  {
    list := [];
    var rest := s;
    while rest != {}
      invariant rest <= s && Elements(list) == s - rest
      invariant Distinct(list)
      decreases rest
    {
      var v :| v in rest;
      assert v !in list;
      assert Elements(list + [v]) == Elements(list) + {v};
      list := list + [v];
      rest := rest - {v};
    }
  }

  /** `groups` holds, key by key, the values `xs` files under that key, each exactly once. */
  ghost predicate Normalised(groups: map<string, seq<string>>, xs: seq<string>)
  {
    && groups.Keys == XrefTable(xs).Keys
    && forall k | k in groups :: Distinct(groups[k]) && Elements(groups[k]) == XrefTable(xs)[k]
  }

  /** The cross-reference dictionary of parser.py:74-89, each set turned into a list. */
  method NormaliseXrefs(xs: seq<string>) returns (groups: map<string, seq<string>>)
    ensures Normalised(groups, xs)
  {
    var xrefs: map<string, set<string>> := map[];
    for i := 0 to |xs|
      invariant xrefs == XrefTable(xs[..i])
    {
      assert xs[..i + 1][..i] == xs[..i];
      var val := xs[i];
      if ':' in val {
        var (prefix, id) := SplitOnce(val, ':').value;
        if prefix == "http" || prefix == "https" {
          continue;
        }
        var key, item;
        if Lower(prefix) in RECOGNISED {
          key, item := Lower(prefix), id;
        } else if prefix == "MSH" {
          key, item := "mesh", id;
        } else {
          key, item := Lower(prefix), val;
        }
        xrefs := xrefs[key := (if key in xrefs then xrefs[key] else {}) + {item}];
      }
    }
    assert xs[..|xs|] == xs;
    groups := map[];
    var pending := xrefs.Keys;
    while pending != {}
      invariant pending <= xrefs.Keys
      invariant groups.Keys == xrefs.Keys - pending
      invariant forall k | k in groups :: Distinct(groups[k]) && Elements(groups[k]) == xrefs[k]
      decreases pending
    {
      var k :| k in pending;
      var list := ListOf(xrefs[k]);
      groups := groups[k := list];
      pending := pending - {k};
    }
  }

  /** A duplicate-free list of one element is that element alone. */
  lemma SingleList(list: seq<string>, v: string)
    requires Distinct(list) && Elements(list) == {v}
    ensures list == [v]
  {
    assert v in Elements(list);
    assert |list| >= 2 ==> list[0] != list[1];
    forall j | 0 <= j < |list| ensures list[j] == v {
      assert list[j] in Elements(list);
    }
  }

  /** The dictionary made from a single cross-reference: empty when it is skipped. */
  lemma NormalisedOne(groups: map<string, seq<string>>, x: string)
    requires Normalised(groups, [x])
    ensures Entry(x).None? ==> groups == map[]
    ensures Entry(x).Some? ==> groups == map[Entry(x).value.0 := [Entry(x).value.1]]
  {
    assert [x][..0] == [] && [x][0] == x;
    assert XrefTable([x][..0]) == map[];
    if Entry(x).Some? {
      var (k, v) := Entry(x).value;
      var m := XrefTable([x][..0]);
      assert m == map[];
      var none: set<string> := {};
      assert none + {v} == {v};
      assert XrefTable([x]) == m[k := none + {v}];
      assert m[k := {v}] == map[k := {v}];
      SingleList(groups[k], v);
    }
  }

  /** `["MSH:<id>"]` gives `{"mesh": [<id>]}`. */
  lemma MeshNormalised(groups: map<string, seq<string>>, id: string)
    requires Normalised(groups, ["MSH:" + id])
    ensures groups == map["mesh" := [id]]
  {
    MeshFiled(id);
    NormalisedOne(groups, "MSH:" + id);
  }

  /** `["UMLS:<id>"]` gives `{"umls": [<id>]}`. */
  lemma UmlsNormalised(groups: map<string, seq<string>>, id: string)
    requires Normalised(groups, ["UMLS:" + id])
    ensures groups == map["umls" := [id]]
  {
    UmlsFiled(id);
    NormalisedOne(groups, "UMLS:" + id);
  }

  /** `["http:<rest>"]` gives the empty dictionary. */
  lemma UrlNormalised(groups: map<string, seq<string>>, rest: string)
    requires Normalised(groups, ["http:" + rest])
    ensures groups == map[]
  {
    UrlSkipped(rest);
    NormalisedOne(groups, "http:" + rest);
  }
}
