# HPO parser model

A Dafny model of `parser.py`, the data plugin that loads the Human Phenotype Ontology
into records. It covers four pieces:

- **Synonyms.** `get_synonyms` sorts each raw synonym string into the `exact`, `related`
  or `broad` class and extracts every quoted part of it. The regular expression `"(.+?)"`
  is written out as a scanner over characters.
- **Annotations.** The loader reads the tab-separated annotation file and groups its
  records by phenotype id. The order of the input is kept.
- **Cross-references.** Each node's `xref` list becomes a dictionary from normalised
  prefixes to duplicate-free lists of values: the id after the colon, or the whole string
  for an unrecognised prefix.
- **Node records.** Each ontology node is reshaped into its output record. This covers the
  ids, the `HP:`-filtered parents and graph neighbours, the synonym dictionary, the removed
  provenance fields, the relationship fields and the attached annotations.

Modules:

| file | module | contents |
|---|---|---|
| `Results.dfy` | `Results` | `Option` and `Result` |
| `Strings.dfy` | `Strings` | containment, `split`/`join`, first-colon split, ASCII `lower`, `rstrip('\n')` |
| `Synonyms.dfy` | `Synonyms` | the quoted-string scanner and `get_synonyms` |
| `Annotations.dfy` | `Annotations` | line parsing and the grouped annotation table |
| `Xrefs.dfy` | `Xrefs` | cross-reference normalisation |
| `Enricher.dfy` | `Enricher` | the per-node reshaping and `load_data` |

The Python code builds several values by updating them in a loop: the synonym
accumulators, the annotation dictionary, the `xrefs` default-dictionary and the
relationship fields. Each of these is a method with a loop. Its invariant ties the value
built so far to a fold over the input read so far, and lemmas state what that fold means.

A node's attribute dictionary is a `map<string, Value>`. This lets a relationship
predicate overwrite any key, as it can in Python. The record shape is stated key by key:
`KeyShaped` covers the steps before the relationships, and `Reshaped` covers the full
output record.

## Model

| member | source | states |
|---|---|---|
| Strings.ContainsIff | parser.py:18 | Python's `sub in s` holds exactly when `sub` occurs at some position of `s` |
| Strings.SplitJoin | parser.py:46 | joining the parts of `str.split(c)` with `c` gives back the original string |
| Strings.JoinSplit | parser.py:46 | splitting a join of `c`-free parts gives back those parts |
| Strings.SplitCount | parser.py:100 | `split(c)` yields one more part than there are `c` in the string |
| Strings.SplitOnce | parser.py:77 | `split(':', 1)`: `None` exactly when there is no colon; otherwise a colon-free head, then the colon, then the rest |
| Strings.Before | parser.py:101 | `split(':')[0]` is a colon-free prefix of the value: the whole value when it has no colon, otherwise the part ending at the first colon |
| Strings.Lower | parser.py:80 | `lower()` keeps the length, turns each letter `A`-`Z` into the corresponding letter of `a`-`z`, and keeps every other character |
| Strings.LowerEqualIff | parser.py:80 | two strings lower-case to the same string exactly when they agree character by character up to ASCII case |
| Strings.StripNewlines | parser.py:46 | `rstrip('\n')` is a prefix that does not end in a newline, and only newlines are removed |
| Synonyms.FindQuoted | parser.py:19 | every string `re.findall(r'"(.+?)"', s)` returns is a non-empty match body without a newline, whose characters after the first are not quotes |
| Synonyms.ClosingQuote | parser.py:19 | a closing position found is a quote after at least one body character, with no newline and no earlier allowed quote before it |
| Synonyms.ClosingQuoteScan | parser.py:19 | conversely, the first allowed quote with no newline before it is found, so the lazy `.+?` stops exactly there |
| Synonyms.FindQuotedSkip | parser.py:19 | text without a quote before a match contributes nothing |
| Synonyms.FindQuotedMatch | parser.py:19 | a quoted body is extracted, and the scan resumes after its closing quote |
| Synonyms.FindQuotedRoundTrip | parser.py:19 | quoting a list of bodies, with quote-free gaps between them, and scanning the result gives back the list |
| Synonyms.FindQuotedSound | parser.py:19 | every extracted string is the body of a lazy match at some position of the input |
| Synonyms.OpeningMatch | parser.py:19 | a closing quote found for an opening quote at the front completes a lazy match there |
| Synonyms.FindQuotedUnclosed | parser.py:19 | an opening quote that starts no match, for instance because a newline cuts it off, is skipped, and scanning resumes at the next character |
| Synonyms.FindQuotedEmpty | parser.py:19 | text in which the pattern matches nowhere yields no capture |
| Synonyms.FindQuotedLeftmost | parser.py:19 | when a match opens at `i` and none opens earlier, its capture comes first and scanning resumes after its closing quote; with `FindQuotedEmpty` this fixes the whole result from the matches of the input |
| Synonyms.Collected | parser.py:17-26 | what a class accumulates consists of match bodies only |
| Synonyms.CollectedAppend | parser.py:17-26 | a class's accumulation distributes over concatenation of the input, so input order is kept |
| Synonyms.CollectedSingle | parser.py:18-26 | one synonym string contributes its matches to its own class and nothing to the others |
| Synonyms.SynonymRouting | parser.py:18-26 | `ClassOf`: a string containing `EXACT` goes to `exact` even when it also holds `RELATED` or `BROAD`; then `RELATED`, then `BROAD`; a string with none of the tags contributes nothing |
| Synonyms.CollectedMembers | parser.py:17-26 | a string is in a class's list exactly when some synonym of that class yields it |
| Synonyms.SynonymGroupsKeys | parser.py:12-36 | `SynonymGroups`: the empty dictionary when there is no `synonym` attribute; only the three class keys; a key is present exactly when its class collected something, and it holds that list |
| Synonyms.GetSynonyms | parser.py:8-36 | the loop's result is the synonym dictionary |
| Synonyms.OneExact | parser.py:17-36 | one string with one quoted body and the `EXACT` tag gives `{"exact": [body]}` |
| Synonyms.SynonymExample | parser.py:8-36 | `"Foo disease" EXACT [ORCID:1234]` gives `{"exact": ["Foo disease"]}`, and no attribute gives `{}` |
| Annotations.ParseLineFields | parser.py:46-62 | `ParseLine`: a line of fewer than 7 tab-separated fields is an error naming the line; otherwise the id, `gene.id`, `gene.symbol`, `source` and `disease_id` are fields 0, 2, 3, 5 and 6, and `source_info` is present exactly when field 4 is neither `""` nor `"-"`, with that field verbatim |
| Annotations.ParseAll | parser.py:45-62 | a successful parse yields one record per data line |
| Annotations.ParseAllSpec | parser.py:45-62 | parsing succeeds exactly when every line parses, record `i` is line `i`'s; on failure the error is the first bad line's |
| Annotations.ParseAllStable | parser.py:45-62 | once a prefix of the lines fails, the whole file fails with the same error |
| Annotations.GroupedByKey | parser.py:63 | `Grouped`: a term id is a key exactly when some record has it, and its list is that id's records in file order |
| Annotations.RecordsForMembers | parser.py:63 | a record is in an id's list exactly when the file has that record for that id |
| Annotations.TotalSizeRemove | parser.py:63 | the size of a table is the size of one list plus the size of the rest |
| Annotations.GroupedTotal | parser.py:63 | the table holds exactly as many records as there are data lines, with nothing deduplicated |
| Annotations.LoadAnnotations | parser.py:43-63 | skipping the header and appending record by record builds the table of the fold, or fails with the first malformed line |
| Xrefs.EntryOf | parser.py:76-85 | `Entry`: prefix `http` or `https` is dropped; a recognised prefix, compared lower-cased, is filed under its lower-cased key with the text after the colon; `MSH` is filed under `mesh` with the text after the colon; any other prefix is filed under its lower-cased key with the whole original string |
| Xrefs.EntrySkipped | parser.py:76-79 | an entry is dropped exactly when it has no colon or when it starts with `http:` or `https:` |
| Xrefs.MeshFiled | parser.py:82-83 | `MSH:<id>` is filed as `mesh` with `<id>` |
| Xrefs.UmlsFiled | parser.py:80-81 | `UMLS:<id>` is filed as `umls` with `<id>` |
| Xrefs.UmlsAnyCase | parser.py:80-81 | a prefix spelling `umls` in any ASCII case is filed under `umls` with the text after the colon |
| Xrefs.LowerMshFiled | parser.py:82-85 | `msh:<id>` is filed under `msh` with the whole string, because the `MSH` test is case-sensitive |
| Xrefs.UrlSkipped | parser.py:78-79 | `http:<rest>` is dropped |
| Xrefs.XrefTable | parser.py:74-85 | no key maps to an empty set |
| Xrefs.XrefTableSpec | parser.py:74-85 | a pair is in the table exactly when some entry is filed as that pair |
| Xrefs.XrefTableKeys | parser.py:74-85 | a key is present exactly when some entry is filed under it |
| Xrefs.ListOf | parser.py:86-87 | `list(v)` is a duplicate-free list with the set's elements |
| Xrefs.NormaliseXrefs | parser.py:73-89 | the resulting dictionary has the table's keys, and each value is a duplicate-free list of that key's ids |
| Xrefs.NormalisedOne | parser.py:73-89 | a single cross-reference gives the empty dictionary when it is skipped, and otherwise one key holding one value |
| Xrefs.MeshNormalised | parser.py:73-89 | `["MSH:<id>"]` gives `{"mesh": [<id>]}` |
| Xrefs.UmlsNormalised | parser.py:73-89 | `["UMLS:<id>"]` gives `{"umls": [<id>]}` |
| Xrefs.UrlNormalised | parser.py:73-89 | `["http:<rest>"]` gives `{}` |
| Enricher.FilterHP | parser.py:72 | every id kept starts with `HP:` |
| Enricher.FilterHPMembers | parser.py:72-92 | an id is kept exactly when it is in the input and starts with `HP:` |
| Enricher.FilterHPAppend | parser.py:72-92 | filtering distributes over concatenation, so order is kept |
| Enricher.FilterHPKeepsAll | parser.py:72-92 | a list whose ids all start with `HP:` is kept whole |
| Enricher.RelationshipWellFormed | parser.py:100 | a relationship unpacks into predicate and value exactly when it holds exactly one space |
| Enricher.RelationshipOf | parser.py:100-102 | `ParseRelationship`: `<predicate> <value>` sets `predicate` to `{lower(prefix): value}`, where the prefix is the value up to its first colon, or the whole value |
| Enricher.LinksKeys | parser.py:99-102 | a field is set exactly when some well-formed relationship names it |
| Enricher.LinksLastWins | parser.py:99-102 | `Links`: the last relationship naming a predicate decides that field |
| Enricher.OverrideStep | parser.py:102 | one more relationship sets one more field over the record |
| Enricher.StampIds | parser.py:69-70 | `_id` and `hp` hold the node id, and nothing else changes |
| Enricher.SetParents | parser.py:71-72 | a truthy `is_a` is removed and `parents` holds its `HP:` entries; a falsy one leaves the record as it was |
| Enricher.SetXrefs | parser.py:73-89 | a truthy `xref` is removed and `xrefs` holds its normalised groups; a falsy one leaves the record as it was |
| Enricher.SetGraphFields | parser.py:90-92 | `children`, `ancestors` and `descendants` hold the `HP:` part of the graph's answers |
| Enricher.SetSynonyms | parser.py:93 | `synonym` holds the synonym dictionary of the record |
| Enricher.DropProvenance | parser.py:94-97 | a truthy `created_by` or `creation_date` is removed; a falsy one stays |
| Enricher.AfterParents | parser.py:69-72 | after the first two steps the ids and parents are shaped, and every other key is as in the node |
| Enricher.AfterXrefs | parser.py:69-89 | after the cross-references step those keys are shaped too |
| Enricher.AfterGraph | parser.py:69-92 | after the graph fields those keys are shaped too |
| Enricher.AfterSynonyms | parser.py:69-93 | after the synonym step that key is shaped too |
| Enricher.AfterProvenance | parser.py:69-97 | after the provenance step every key is as `KeyShaped` describes |
| Enricher.ReshapeAttributes | parser.py:69-97 | every key of the record is shaped: ids, `parents` only when `is_a` was truthy, `xrefs` only when `xref` was truthy, the graph fields, the synonyms, no truthy provenance; every other key is as in the node |
| Enricher.ApplyRelationships | parser.py:98-103 | fails exactly when some relationship does not split into two parts, naming the first; otherwise every field the relationships name holds its link and `relationship` is removed |
| Enricher.Assemble | parser.py:98-106 | the relationship fields and the annotations attached last give the full output shape |
| Enricher.Transform | parser.py:67-106 | a node fails exactly when it has a malformed relationship, and the error names the node and its first malformed relationship; otherwise its record has the output shape, with the annotations attached only when the table holds a non-empty list for the id |
| Enricher.RelationshipFieldWins | parser.py:98-106 | an output field named by a well-formed relationship holds that relationship's link when no later one names it, unless annotations overwrite it |
| Enricher.OutputIds | parser.py:69-70 | both `_id` and `hp` of an output record hold the node id, unless a relationship names one of them |
| Enricher.OutputNamespace | parser.py:71-72 | `children`, `ancestors`, `descendants`, and `parents` from a truthy `is_a`, list only `HP:` ids, unless a relationship names that field |
| Enricher.LoadData | parser.py:38-108 | an annotation error yields nothing; otherwise the records are the shaped records of a prefix of the nodes, all of them when no node fails and up to the first node with a malformed relationship otherwise |

## Behaviour as written

The model follows the code in these cases, where a reader might expect something else:

- A record always has `synonym`. It is the empty dictionary when the node has no synonyms.
- A relationship must split on spaces into exactly two parts: `split(' ')` is unpacked into
  two names. It is not split at the first space only.
- `is_a`, `xref`, `created_by`, `creation_date` and `relationship` are handled only when
  they are truthy. An empty list stays in the record.
- A recognised cross-reference prefix is a key in lower case, whatever its case in the
  input. An unrecognised prefix keeps the whole original string as its value, not only the
  part after the colon.
- A relationship whose predicate is `_id`, `hp`, `parents` or any other field overwrites
  that field. `OutputIds` and `OutputNamespace` therefore exclude those predicates.

## Left out

- File access (parser.py:40-45): `os.path.join`, the `assert os.path.exists`, `open` and
  reading lines are left out. `load_data` takes the file's lines (header included) as a
  `seq<string>`.
- The ontology download and OBO parsing through `obonet.read_obo` (parser.py:65-66) are
  left out. Each node is a `GraphNode` value: its id, its attribute dictionary, and the
  graph's answers.
- `graph.predecessors`, `nx.descendants` and `nx.ancestors` (parser.py:90-92) are library
  algorithms and are not modelled. Their results are inputs in the library's order, and
  only the `HP:` filtering is modelled. Reachability and acyclicity are not stated.
- The node dictionary is updated in place in Python. The model passes a map value from
  step to step instead. Aliasing is not modelled: the graph's node dictionaries are
  changed as records are produced, and the annotation list is shared rather than copied
  (parser.py:106).
- The generator's laziness (`yield`, parser.py:108) is not modelled. `LoadData` returns
  the records produced before the first error, and the error.
- The iteration order of `graph.nodes()`, and of each cross-reference set turned into a
  list (parser.py:87), is not modelled. The nodes are given as a sequence, and lists made
  from sets are stated only by their contents.
- Strings.Lower: maps only `A`-`Z` to lower case, whereas Python's `str.lower` also
  lower-cases non-ASCII letters. Keys formed from non-ASCII prefixes can differ from the
  model's.
- The regular-expression engine as a whole is not modelled. Only the single pattern
  `"(.+?)"` is, as a scanner.
- Enricher.Transform: requires the list-valued attributes (`is_a`, `xref`, `synonym`,
  `relationship`) to be lists of strings, which is what the OBO reader produces. Other
  attribute types are not modelled.
- Ancestor and descendant sets of concrete graphs (such as a three-node is-a chain) are not
  modelled, because they come from the graph library.
