/**
 * `get_synonyms` of parser.py: raw OBO synonym strings are sorted into the classes
 * EXACT, RELATED and BROAD, and every quoted substring is extracted with the regular
 * expression `"(.+?)"`, which is modelled here by an explicit left-to-right scanner.
 */
module Synonyms {
  import opened Results
  import opened Strings

  const QUOTE: char := '"'

  /**
   * What `(.+?)` can capture between two quotes: at least one character, no newline
   * (`.` does not match one), and no quote after the first character (the lazy `+?`
   * stops at the first quote it may stop at, which is never the first character).
   */
  predicate Body(w: string)
  {
    |w| >= 1 && '\n' !in w && QUOTE !in w[1..]
  }

  /**
   * `"(.+?)"` matches `s[i..j + 1]`: an opening quote at `i`, the closing quote at `j`,
   * and a capture `s[i + 1..j]` that is a `Body`.
   */
  ghost predicate LazyMatch(s: string, i: int, j: int)
  {
    0 <= i && i + 2 <= j < |s| && s[i] == QUOTE && s[j] == QUOTE && Body(s[i + 1..j])
  }

  /**
   * With an opening quote at `s[0]`, the position of the matching closing quote,
   * searching from position `j`; `None` when a newline or the end comes first.
   */
  function ClosingQuote(s: string, j: nat): (r: Option<nat>)
    requires 1 <= j
    ensures r.Some? ==> j <= r.value < |s| && r.value >= 2 && s[r.value] == QUOTE
    ensures r.Some? ==> forall k | j <= k < r.value :: s[k] != '\n' && (k >= 2 ==> s[k] != QUOTE)
    decreases |s| - j
  {
    if j >= |s| then None
    else if s[j] == '\n' then None
    else if s[j] == QUOTE && j >= 2 then Some(j)
    else ClosingQuote(s, j + 1)
  }

  /** Python's `re.findall(r'"(.+?)"', s)`: the captures of successive non-overlapping matches. */
  function FindQuoted(s: string): (r: seq<string>)
    ensures forall w | w in r :: Body(w)
    decreases |s|
  {
    if |s| == 0 then []
    else if s[0] == QUOTE then
      match ClosingQuote(s, 1)
      case Some(j) =>
        assert Body(s[1..j]) by {
          assert forall k | 0 <= k < j - 1 :: s[1..j][k] == s[k + 1];
        }
        [s[1..j]] + FindQuoted(s[j + 1..])
      case None => FindQuoted(s[1..])
    else FindQuoted(s[1..])
  }

  /** Text without a quote contributes no match. */
  lemma {:induction false} FindQuotedSkip(pre: string, rest: string)
    requires QUOTE !in pre
    ensures FindQuoted(pre + rest) == FindQuoted(rest)
    decreases |pre|
  {
    if |pre| > 0 {
      assert (pre + rest)[0] == pre[0];
      assert (pre + rest)[1..] == pre[1..] + rest;
      FindQuotedSkip(pre[1..], rest);
    } else {
      assert pre + rest == rest;
    }
  }

  /** A quoted `Body` at the front is the first match, and scanning resumes after it. */
  lemma FindQuotedMatch(w: string, rest: string)
    requires Body(w)
    ensures FindQuoted([QUOTE] + w + [QUOTE] + rest) == [w] + FindQuoted(rest)
  {
    var s := [QUOTE] + w + [QUOTE] + rest;
    var n := |w| + 1;
    assert s[n] == QUOTE;
    assert forall k | 1 <= k < n :: s[k] == w[k - 1];
    ClosingQuoteScan(s, 1, n);
    assert s[1..n] == w;
    assert s[n + 1..] == rest;
  }

  lemma {:induction false} ClosingQuoteScan(s: string, j: nat, n: nat)
    requires 1 <= j <= n < |s| && n >= 2 && s[n] == QUOTE
    requires forall k | j <= k < n :: s[k] != '\n' && (k >= 2 ==> s[k] != QUOTE)
    ensures ClosingQuote(s, j) == Some(n)
    decreases n - j
  {
    if j < n {
      ClosingQuoteScan(s, j + 1, n);
    }
  }

  /** A closing quote found for the opening quote at the front completes a match. */
  lemma OpeningMatch(s: string)
    requires |s| > 0 && s[0] == QUOTE
    ensures ClosingQuote(s, 1).Some? ==> LazyMatch(s, 0, ClosingQuote(s, 1).value)
  {
    if ClosingQuote(s, 1).Some? {
      var j := ClosingQuote(s, 1).value;
      assert forall k | 0 <= k < j - 1 :: s[1..j][k] == s[k + 1];
    }
  }

  /** An opening quote at the front that starts no match is skipped, and scanning resumes after it. */
  lemma FindQuotedUnclosed(s: string)
    requires |s| > 0 && s[0] == QUOTE
    requires forall j :: !LazyMatch(s, 0, j)
    ensures FindQuoted(s) == FindQuoted(s[1..])
  {
    OpeningMatch(s);
  }

  /** Text in which the pattern matches nowhere yields no capture. */
  lemma FindQuotedEmpty(s: string)
    requires forall i, j :: !LazyMatch(s, i, j)
    ensures FindQuoted(s) == []
  {
    if |FindQuoted(s)| > 0 {
      FindQuotedSound(s, 0);
    }
  }

  /**
   * The leftmost match comes first: when a match opens at `i` and none opens earlier,
   * its capture is the first one, and scanning resumes after its closing quote.
   */
  lemma {:induction false} FindQuotedLeftmost(s: string, i: nat, j: nat)
    requires LazyMatch(s, i, j)
    requires forall i', j' | 0 <= i' < i :: !LazyMatch(s, i', j')
    ensures FindQuoted(s) == [s[i + 1..j]] + FindQuoted(s[j + 1..])
    decreases i
  {
    if i == 0 {
      assert forall k | 1 <= k < j :: s[k] == s[1..j][k - 1];
      ClosingQuoteScan(s, 1, j);
    } else {
      if s[0] == QUOTE {
        FindQuotedUnclosed(s);
      }
      assert FindQuoted(s) == FindQuoted(s[1..]);
      var t := s[1..];
      assert t[i - 1..j] == s[i..j + 1];
      assert t[i..j - 1] == s[i + 1..j];
      assert LazyMatch(t, i - 1, j - 1);
      forall i', j' | 0 <= i' < i - 1 ensures !LazyMatch(t, i', j') {
        if LazyMatch(t, i', j') {
          LazyMatchShift(s, 1, i', j');
        }
      }
      FindQuotedLeftmost(t, i - 1, j - 1);
      assert t[j..] == s[j + 1..];
    }
  }

  /** The text a sequence of captures is quoted in: each one in quotes, separated by `gap`. */
  function Quoted(words: seq<string>, gap: string): string
    decreases |words|
  {
    if |words| == 0 then gap
    else gap + [QUOTE] + words[0] + [QUOTE] + Quoted(words[1..], gap)
  }

  /** Round trip: quoting captures with quote-free gaps and scanning gives the captures back. */
  lemma {:induction false} FindQuotedRoundTrip(words: seq<string>, gap: string)
    requires forall w | w in words :: Body(w)
    requires QUOTE !in gap
    ensures FindQuoted(Quoted(words, gap)) == words
    decreases |words|
  {
    if |words| == 0 {
      FindQuotedSkip(gap, "");
      assert gap + "" == gap;
    } else {
      var tail := Quoted(words[1..], gap);
      assert Quoted(words, gap) == gap + ([QUOTE] + words[0] + [QUOTE] + tail);
      FindQuotedSkip(gap, [QUOTE] + words[0] + [QUOTE] + tail);
      assert words[0] in words;
      FindQuotedMatch(words[0], tail);
      FindQuotedRoundTrip(words[1..], gap);
    }
  }

  /** A match inside a suffix `s[d..]` is a match in `s`, shifted by `d`. */
  lemma LazyMatchShift(s: string, d: nat, i: int, j: int)
    requires d <= |s| && LazyMatch(s[d..], i, j)
    ensures LazyMatch(s, i + d, j + d) && s[i + d + 1..j + d] == s[d..][i + 1..j]
  {
    assert s[d..][i + 1..j] == s[i + d + 1..j + d];
  }

  /** Every capture comes from a match of the pattern in `s`. */
  lemma {:induction false} FindQuotedSound(s: string, k: nat)
    requires k < |FindQuoted(s)|
    ensures exists i, j :: LazyMatch(s, i, j) && s[i + 1..j] == FindQuoted(s)[k]
    decreases |s|
  {
    var r := FindQuoted(s);
    if s[0] == QUOTE && ClosingQuote(s, 1).Some? {
      var j := ClosingQuote(s, 1).value;
      assert r == [s[1..j]] + FindQuoted(s[j + 1..]);
      if k == 0 {
        assert r[0] in r;
        assert LazyMatch(s, 0, j);
      } else {
        FindQuotedSound(s[j + 1..], k - 1);
        var i', j' :| LazyMatch(s[j + 1..], i', j') && s[j + 1..][i' + 1..j'] == r[k];
        LazyMatchShift(s, j + 1, i', j');
      }
    } else {
      assert r == FindQuoted(s[1..]);
      FindQuotedSound(s[1..], k);
      var i', j' :| LazyMatch(s[1..], i', j') && s[1..][i' + 1..j'] == r[k];
      LazyMatchShift(s, 1, i', j');
    }
  }

  /** The three synonym classes, keyed in the result as "exact", "related" and "broad". */
  datatype Class = Exact | Related | Broad

  function Key(c: Class): string
  {
    match c
    case Exact => "exact"
    case Related => "related"
    case Broad => "broad"
  }

  /** The class a raw synonym goes to: the first of EXACT, RELATED, BROAD it contains. */
  function ClassOf(syn: string): Option<Class>
  {
    if Contains(syn, "EXACT") then Some(Exact)
    else if Contains(syn, "RELATED") then Some(Related)
    else if Contains(syn, "BROAD") then Some(Broad)
    else None
  }

  /** The captures class `c` collects from `syns`, in input order. */
  function Collected(syns: seq<string>, c: Class): (r: seq<string>)
    ensures forall w | w in r :: Body(w)
    decreases |syns|
  {
    if |syns| == 0 then []
    else
      var last := syns[|syns| - 1];
      Collected(syns[..|syns| - 1], c) + (if ClassOf(last) == Some(c) then FindQuoted(last) else [])
  }

  /** The dictionary `get_synonyms` returns for a record whose `synonym` attribute is `synonym`. */
  function SynonymGroups(synonym: Option<seq<string>>): map<string, seq<string>>
  {
    match synonym
    case None => map[]
    case Some(syns) =>
      var exact, related, broad := Collected(syns, Exact), Collected(syns, Related), Collected(syns, Broad);
      var m0: map<string, seq<string>> := map[];
      var m1 := if |exact| > 0 then m0["exact" := exact] else m0;
      var m2 := if |related| > 0 then m1["related" := related] else m1;
      if |broad| > 0 then m2["broad" := broad] else m2
  }

  /**
   * `get_synonyms`: one pass over the raw synonyms, appending each one's captures to the
   * accumulator of its class.
   */
  method GetSynonyms(synonym: Option<seq<string>>) returns (groups: map<string, seq<string>>)
    ensures groups == SynonymGroups(synonym)
  {
    if synonym.None? {
      return map[];
    }
    var syns := synonym.value;
    var exact, related, broad := [], [], [];
    for i := 0 to |syns|
      invariant exact == Collected(syns[..i], Exact)
      invariant related == Collected(syns[..i], Related)
      invariant broad == Collected(syns[..i], Broad)
    {
      var syn := syns[i];
      assert syns[..i + 1][..i] == syns[..i];
      if Contains(syn, "EXACT") {
        exact := exact + FindQuoted(syn);
      } else if Contains(syn, "RELATED") {
        related := related + FindQuoted(syn);
      } else if Contains(syn, "BROAD") {
        broad := broad + FindQuoted(syn);
      }
    }
    assert syns[..|syns|] == syns;
    groups := map[];
    if |exact| > 0 {
      groups := groups["exact" := exact];
    }
    if |related| > 0 {
      groups := groups["related" := related];
    }
    if |broad| > 0 {
      groups := groups["broad" := broad];
    }
  }

  /**
   * The result has no synonym classes when the attribute is missing; otherwise a class's key
   * is present exactly when that class collected something, and maps to what it collected.
   */
  lemma SynonymGroupsKeys(synonym: Option<seq<string>>, c: Class)
    ensures synonym.None? ==> SynonymGroups(synonym) == map[]
    ensures SynonymGroups(synonym).Keys <= {"exact", "related", "broad"}
    ensures Key(c) in SynonymGroups(synonym) <==> synonym.Some? && Collected(synonym.value, c) != []
    ensures Key(c) in SynonymGroups(synonym) ==> SynonymGroups(synonym)[Key(c)] == Collected(synonym.value, c)
  {
  }

  /** Collecting is order-preserving: the captures of `a + b` are those of `a`, then of `b`. */
  lemma {:induction false} CollectedAppend(a: seq<string>, b: seq<string>, c: Class)
    ensures Collected(a + b, c) == Collected(a, c) + Collected(b, c)
    decreases |b|
  {
    if |b| == 0 {
      assert a + b == a;
    } else {
      var last := b[|b| - 1];
      assert (a + b)[..|a + b| - 1] == a + b[..|b| - 1];
      CollectedAppend(a, b[..|b| - 1], c);
    }
  }

  lemma CollectedSingle(syn: string, c: Class)
    ensures Collected([syn], c) == if ClassOf(syn) == Some(c) then FindQuoted(syn) else []
  {
    assert [syn][..0] == [];
  }

  /**
   * A string goes to exactly one class, tried in the order EXACT, RELATED, BROAD; a string
   * without any of the tags contributes nothing.
   */
  lemma SynonymRouting(syn: string, rest: seq<string>)
    ensures Contains(syn, "EXACT") ==>
      && Collected([syn] + rest, Exact) == FindQuoted(syn) + Collected(rest, Exact)
      && Collected([syn] + rest, Related) == Collected(rest, Related)
      && Collected([syn] + rest, Broad) == Collected(rest, Broad)
    ensures !Contains(syn, "EXACT") && Contains(syn, "RELATED") ==>
      && Collected([syn] + rest, Exact) == Collected(rest, Exact)
      && Collected([syn] + rest, Related) == FindQuoted(syn) + Collected(rest, Related)
      && Collected([syn] + rest, Broad) == Collected(rest, Broad)
    ensures !Contains(syn, "EXACT") && !Contains(syn, "RELATED") && Contains(syn, "BROAD") ==>
      && Collected([syn] + rest, Exact) == Collected(rest, Exact)
      && Collected([syn] + rest, Related) == Collected(rest, Related)
      && Collected([syn] + rest, Broad) == FindQuoted(syn) + Collected(rest, Broad)
    ensures !Contains(syn, "EXACT") && !Contains(syn, "RELATED") && !Contains(syn, "BROAD") ==>
      forall c :: Collected([syn] + rest, c) == Collected(rest, c)
  {
    forall c: Class ensures Collected([syn] + rest, c) == (if ClassOf(syn) == Some(c) then FindQuoted(syn) else []) + Collected(rest, c) {
      CollectedAppend([syn], rest, c);
      CollectedSingle(syn, c);
    }
  }

  /** A capture is collected by `c` exactly when some synonym of class `c` yields it. */
  lemma {:induction false} CollectedMembers(syns: seq<string>, c: Class, w: string)
    ensures w in Collected(syns, c) <==> exists i :: 0 <= i < |syns| && ClassOf(syns[i]) == Some(c) && w in FindQuoted(syns[i])
    decreases |syns|
  {
    if |syns| > 0 {
      var init := syns[..|syns| - 1];
      CollectedMembers(init, c, w);
      assert forall i | 0 <= i < |init| :: init[i] == syns[i];
    }
  }

  /** A synonym holding one quoted capture and an EXACT tag after it is one exact synonym. */
  lemma OneExact(w: string, rest: string)
    requires Body(w) && QUOTE !in rest && Contains(rest, "EXACT")
    ensures SynonymGroups(Some([[QUOTE] + w + [QUOTE] + rest])) == map["exact" := [w]]
  {
    var syn := [QUOTE] + w + [QUOTE] + rest;
    FindQuotedMatch(w, rest);
    FindQuotedSkip(rest, "");
    assert rest + "" == rest;
    ContainsSuffix([QUOTE] + w + [QUOTE], rest, "EXACT");
    CollectedSingle(syn, Exact);
    CollectedSingle(syn, Related);
    CollectedSingle(syn, Broad);
    assert ClassOf(syn) == Some(Exact);
    assert Collected([syn], Exact) == [w];
    assert Collected([syn], Related) == [] && Collected([syn], Broad) == [];
    var m0: map<string, seq<string>> := map[];
    assert SynonymGroups(Some([syn])) == m0["exact" := [w]];
  }

  /** The sample synonym line `"Foo disease" EXACT [ORCID:1234]` yields one exact synonym. */
  lemma SynonymExample()
    ensures SynonymGroups(Some(["\"Foo disease\" EXACT [ORCID:1234]"])) == map["exact" := ["Foo disease"]]
    ensures SynonymGroups(None) == map[]
  {
    var rest := " EXACT [ORCID:1234]";
    assert "EXACT" <= rest[1..];
    assert "\"Foo disease\" EXACT [ORCID:1234]" == [QUOTE] + "Foo disease" + [QUOTE] + rest;
    OneExact("Foo disease", rest);
  }
}
