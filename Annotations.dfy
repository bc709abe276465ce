/**
 * The annotation loader of parser.py (`load_data`, lines 43-63): a tab-separated table
 * whose first line is a header; every further line becomes one annotation record, grouped
 * by phenotype term id in file order.
 */
module Annotations {
  import opened Results
  import opened Strings

  datatype Gene = Gene(id: string, symbol: string)

  /** One association line: the `gene`, `source`, `disease_id` and optional `source_info` keys. */
  datatype Annotation = Annotation(gene: Gene, source: string, diseaseId: string, sourceInfo: Option<string>)

  /** A data line with fewer than seven fields; Python raises `IndexError` at `datapoint[k]`. */
  datatype LoadError = MalformedLine(lineNumber: nat, fieldCount: nat)

  /** The loader's result: term id to the annotations of that term, in file order. */
  type Table = map<string, seq<Annotation>>

  const TAB: char := '\t'

  /** The number of fields a data line must have: positions 0 to 6 are read. */
  const FIELDS: nat := 7

  /** `source_info` is kept unless the raw field is empty or a dash. */
  function SourceInfo(field: string): Option<string>
  {
    if field != "" && field != "-" then Some(field) else None
  }

  /** parser.py:46-62 for the line numbered `number` of the file (the header is line 1). */
  function ParseLine(line: string, number: nat): Result<(string, Annotation), LoadError>
  {
    var datapoint := Split(StripNewlines(line), TAB);
    if |datapoint| < FIELDS then Err(MalformedLine(number, |datapoint|))
    else
      var obj := Annotation(Gene(datapoint[2], datapoint[3]), datapoint[5], datapoint[6], SourceInfo(datapoint[4]));
      Ok((datapoint[0], obj))
  }

  /**
   * A line written as tab-separated fields parses back to those fields: term id from field 0,
   * gene id and symbol from 2 and 3, source and disease id from 5 and 6, and `source_info`
   * exactly when field 4 is neither empty nor "-", equal to it verbatim. A line with fewer
   * than seven fields is an error naming the line and its field count.
   */
  lemma ParseLineFields(fields: seq<string>, number: nat)
    requires |fields| >= 1
    requires forall f | f in fields :: TAB !in f && '\n' !in f
    ensures |fields| < FIELDS ==> ParseLine(Join(fields, TAB), number) == Err(MalformedLine(number, |fields|))
    ensures |fields| >= FIELDS ==>
      var r := ParseLine(Join(fields, TAB), number);
      && r.Ok?
      && r.value.0 == fields[0]
      && r.value.1.gene == Gene(fields[2], fields[3])
      && r.value.1.source == fields[5]
      && r.value.1.diseaseId == fields[6]
      && (r.value.1.sourceInfo.Some? <==> fields[4] != "" && fields[4] != "-")
      && (r.value.1.sourceInfo.Some? ==> r.value.1.sourceInfo.value == fields[4])
  {
    JoinExcludes(fields, TAB, '\n');
    StripNewlinesFree(Join(fields, TAB));
    JoinSplit(fields, TAB);
  }

  /** The data lines: everything after the header line; an empty file has none. */
  function DataLines(lines: seq<string>): seq<string>
  {
    if |lines| == 0 then [] else lines[1..]
  }

  /** Parses the data lines in order, stopping at the first malformed one. */
  function ParseAll(data: seq<string>): (r: Result<seq<(string, Annotation)>, LoadError>)
    ensures r.Ok? ==> |r.value| == |data|
    decreases |data|
  {
    if |data| == 0 then Ok([])
    else
      match ParseAll(data[..|data| - 1])
      case Err(e) => Err(e)
      case Ok(recs) =>
        match ParseLine(data[|data| - 1], |data| + 1)
        case Err(e) => Err(e)
        case Ok(rec) => Ok(recs + [rec])
  }

  /**
   * Parsing fails exactly when some data line has fewer than seven fields, with the error of
   * the first such line; otherwise the i-th record is the parse of the i-th data line.
   */
  lemma {:induction false} ParseAllSpec(data: seq<string>)
    ensures ParseAll(data).Ok? <==> forall i | 0 <= i < |data| :: ParseLine(data[i], i + 2).Ok?
    ensures ParseAll(data).Ok? ==> forall i | 0 <= i < |data| :: ParseAll(data).value[i] == ParseLine(data[i], i + 2).value
    ensures ParseAll(data).Err? ==> exists i | 0 <= i < |data| ::
      && ParseLine(data[i], i + 2).Err?
      && ParseAll(data).error == ParseLine(data[i], i + 2).error
      && forall j | 0 <= j < i :: ParseLine(data[j], j + 2).Ok?
    decreases |data|
  {
    if |data| > 0 {
      var init := data[..|data| - 1];
      ParseAllSpec(init);
      assert forall i | 0 <= i < |init| :: init[i] == data[i];
    }
  }

  /** Once a prefix of the data fails to parse, the whole data fails with the same error. */
  lemma {:induction false} ParseAllStable(data: seq<string>, i: nat)
    requires i <= |data| && ParseAll(data[..i]).Err?
    ensures ParseAll(data) == ParseAll(data[..i])
    decreases |data| - i
  {
    if i < |data| {
      assert data[..i + 1][..i] == data[..i];
      ParseAllStable(data, i + 1);
    } else {
      assert data[..i] == data;
    }
  }

  /** `annotations.setdefault(id, []).append(obj)` over the records in order. */
  function Grouped(recs: seq<(string, Annotation)>): Table
    decreases |recs|
  {
    if |recs| == 0 then map[]
    else
      var m := Grouped(recs[..|recs| - 1]);
      var (k, a) := recs[|recs| - 1];
      m[k := (if k in m then m[k] else []) + [a]]
  }

  /** The annotations among `recs` whose term id is `k`, in order. */
  function RecordsFor(recs: seq<(string, Annotation)>, k: string): seq<Annotation>
    decreases |recs|
  {
    if |recs| == 0 then []
    else
      var last := recs[|recs| - 1];
      RecordsFor(recs[..|recs| - 1], k) + (if last.0 == k then [last.1] else [])
  }

  /**
   * Grouping keeps every record in order and drops none: a term id is a key exactly when some
   * record has it, and its list is the sub-sequence of the records with that id, duplicates
   * included.
   */
  lemma {:induction false} GroupedByKey(recs: seq<(string, Annotation)>, k: string)
    ensures k in Grouped(recs) <==> RecordsFor(recs, k) != []
    ensures k in Grouped(recs) ==> Grouped(recs)[k] == RecordsFor(recs, k)
    decreases |recs|
  {
    if |recs| > 0 {
      GroupedByKey(recs[..|recs| - 1], k);
    }
  }

  /** A record is in the group of `k` exactly when a record with id `k` carries it. */
  lemma {:induction false} RecordsForMembers(recs: seq<(string, Annotation)>, k: string, a: Annotation)
    ensures a in RecordsFor(recs, k) <==> (k, a) in recs
    decreases |recs|
  {
    if |recs| > 0 {
      var init := recs[..|recs| - 1];
      RecordsForMembers(init, k, a);
      assert recs == init + [recs[|recs| - 1]];
    }
  }

  /** The number of annotations stored in a table, over all keys. */
  ghost function TotalSize(m: Table): nat
    decreases |m|
  {
    if |m| == 0 then 0
    else
      var k := PickKey(m);
      |m[k]| + TotalSize(m - {k})
  }

  ghost function PickKey(m: Table): (k: string)
    requires |m| > 0
    ensures k in m
  {
    var ks := m.Keys;
    assert |ks| > 0;
    var k :| k in ks;
    k
  }

  /** The total does not depend on which key is taken off first. */
  lemma {:induction false} TotalSizeRemove(m: Table, k: string)
    requires k in m
    ensures TotalSize(m) == |m[k]| + TotalSize(m - {k})
    decreases |m|
  {
    var k' := PickKey(m);
    if k' != k {
      TotalSizeRemove(m - {k'}, k);
      TotalSizeRemove(m - {k}, k');
      assert m - {k'} - {k} == m - {k} - {k'};
    }
  }

  /** Loading stores exactly one annotation per data line: none is merged or dropped. */
  lemma {:induction false} GroupedTotal(recs: seq<(string, Annotation)>)
    ensures TotalSize(Grouped(recs)) == |recs|
    decreases |recs|
  {
    if |recs| > 0 {
      var m := Grouped(recs[..|recs| - 1]);
      GroupedTotal(recs[..|recs| - 1]);
      var (k, a) := recs[|recs| - 1];
      var m' := Grouped(recs);
      TotalSizeRemove(m', k);
      if k in m {
        TotalSizeRemove(m, k);
        assert m' - {k} == m - {k};
      } else {
        assert m' - {k} == m;
      }
    }
  }

  /** The table `load_data` builds from the lines of the annotation file, or its error. */
  function AnnotationTable(lines: seq<string>): Result<Table, LoadError>
  {
    match ParseAll(DataLines(lines))
    case Ok(recs) => Ok(Grouped(recs))
    case Err(e) => Err(e)
  }

  /** parser.py:43-63: skip the header, then parse and append each data line in turn. */
  method LoadAnnotations(lines: seq<string>) returns (r: Result<Table, LoadError>)
    ensures r == AnnotationTable(lines)
  {
    var data := DataLines(lines);
    var annotations: Table := map[];
    ghost var recs: seq<(string, Annotation)> := [];
    for i := 0 to |data|
      invariant ParseAll(data[..i]) == Ok(recs)
      invariant annotations == Grouped(recs)
    {
      assert data[..i + 1][..i] == data[..i];
      var datapoint := Split(StripNewlines(data[i]), TAB);
      if |datapoint| < FIELDS {
        ParseAllStable(data, i + 1);
        return Err(MalformedLine(i + 2, |datapoint|));
      }
      var hpoID := datapoint[0];
      var sourceInfo := datapoint[4];
      var obj := Annotation(Gene(datapoint[2], datapoint[3]), datapoint[5], datapoint[6], None);
      if sourceInfo != "" && sourceInfo != "-" {
        obj := obj.(sourceInfo := Some(sourceInfo));
      }
      var existing := if hpoID in annotations then annotations[hpoID] else [];
      annotations := annotations[hpoID := existing + [obj]];
      recs := recs + [(hpoID, obj)];
    }
    assert data[..|data|] == data;
    r := Ok(annotations);
  }
}
