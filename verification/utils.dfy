/**
  The feature and target pipeline (`Utils`): the feature schema of a
  dataset, the feature vector of one vulnerability, the regression target
  of one event, the masked schema, and the record builder.
 */
module Utils {
  import opened Wrappers
  import opened Strings
  import opened Data

  // =====================================================================
  // Feature schema
  // =====================================================================

  const CvssExpl: string := "__cvss_expl"
  const RefNumber: string := "__ref_number"
  const DaysDiff: string := "__days_diff"

  /** The synthetic feature names appended when base entries are forced. */
  function BaseEntries(force: bool): seq<string>
  {
    if force then [CvssExpl, RefNumber, DaysDiff] else []
  }

  /** Every event of `data` carries a built vulnerability. */
  predicate AllBuilt(data: seq<VulnerabilityEvent>)
  {
    forall i :: 0 <= i < |data| ==> data[i].details.Some?
  }

  function KeywordsOf(v: Vulnerability): seq<string>
  {
    v.keywords
  }

  /** The attack-pattern ids of `v`, `[item[0] for item in v.capec]`. */
  function CapecIdsOf(v: Vulnerability): seq<string>
  {
    seq(|v.capec|, i requires 0 <= i < |v.capec| => v.capec[i].0)
  }

  function CweOf(v: Vulnerability): seq<string>
  {
    v.cwe
  }

  /** The list one group's loop builds: the lowercase names of that group, event after event. */
  function Entries(data: seq<VulnerabilityEvent>, group: Vulnerability -> seq<string>): seq<string>
    requires AllBuilt(data)
    decreases |data|
  {
    if data == [] then []
    else Entries(data[..|data| - 1], group) + LowerAll(group(data[|data| - 1].details.value))
  }

  /** The distinct lowercase names of one group over the whole dataset. */
  function Vocabulary(data: seq<VulnerabilityEvent>, group: Vulnerability -> seq<string>): set<string>
    requires AllBuilt(data)
  {
    set x | x in Entries(data, group)
  }

  /** An entry is collected exactly when it is the lowercase form of a name of that group in some event. */
  lemma {:induction false} EntriesMembership(data: seq<VulnerabilityEvent>, group: Vulnerability -> seq<string>, x: string)
    requires AllBuilt(data)
    ensures x in Entries(data, group) <==>
      exists i, k :: 0 <= i < |data| && 0 <= k < |group(data[i].details.value)| &&
        x == Lower(group(data[i].details.value)[k])
    decreases |data|
  {
    if data != [] {
      var n := |data| - 1;
      var front := data[..n];
      EntriesMembership(front, group, x);
      var last := LowerAll(group(data[n].details.value));
      assert Entries(data, group) == Entries(front, group) + last;
      if x in Entries(data, group) {
        if x in last {
          var k :| 0 <= k < |last| && last[k] == x;
          assert x == Lower(group(data[n].details.value)[k]);
        } else {
          var i, k :| 0 <= i < |front| && 0 <= k < |group(front[i].details.value)| &&
            x == Lower(group(front[i].details.value)[k]);
          assert front[i] == data[i];
        }
      } else {
        forall i, k | 0 <= i < |data| && 0 <= k < |group(data[i].details.value)|
          ensures x != Lower(group(data[i].details.value)[k])
        {
          if i < n {
            assert data[i] == front[i];
          } else {
            assert last[k] == Lower(group(data[i].details.value)[k]);
          }
        }
      }
    }
  }

  /** One more event adds its lowercase names at the end of each group's list. */
  lemma EntriesStep(data: seq<VulnerabilityEvent>, i: nat, group: Vulnerability -> seq<string>)
    requires AllBuilt(data) && i < |data|
    ensures AllBuilt(data[..i]) && AllBuilt(data[..i + 1])
    ensures Entries(data[..i + 1], group) == Entries(data[..i], group) + LowerAll(group(data[i].details.value))
  {
    assert data[..i + 1][..i] == data[..i];
  }

  predicate NoDuplicates(s: seq<string>)
  {
    forall i, j :: 0 <= i < j < |s| ==> s[i] != s[j]
  }

  /** `s` lists the set `vocab`: each element once, nothing else. */
  predicate Lists(s: seq<string>, vocab: set<string>)
  {
    NoDuplicates(s) && (set x | x in s) == vocab
  }

  /** A duplicate-free sequence has as many elements as the set of its elements. */
  lemma {:induction false} ListedCardinality(s: seq<string>)
    requires NoDuplicates(s)
    ensures |set x | x in s| == |s|
    decreases |s|
  {
    if s != [] {
      var n := |s| - 1;
      ListedCardinality(s[..n]);
      assert (set x | x in s) == (set x | x in s[..n]) + {s[n]};
      assert s[n] !in s[..n];
    }
  }

  /**
    `list(set(xs))`: the elements of `xs`, each once. Python leaves their
    order to the set; this keeps first occurrences, which is one of the
    orders the source may produce.
   */
  method ListOfSet(xs: seq<string>) returns (r: seq<string>)
    ensures Lists(r, set x | x in xs)
    ensures |r| == |set x | x in xs|
  {
    r := [];
    for i := 0 to |xs|
      invariant NoDuplicates(r)
      invariant (set x | x in r) == (set x | x in xs[..i])
    {
      assert xs[..i + 1] == xs[..i] + [xs[i]];
      if xs[i] !in r {
        assert (set x | x in r + [xs[i]]) == (set x | x in r) + {xs[i]};
        r := r + [xs[i]];
      }
    }
    assert xs[..|xs|] == xs;
    ListedCardinality(r);
  }

  /** The loop of `get_available_feature_schema` that extends the three lists event by event. */
  method CollectEntries(data: seq<VulnerabilityEvent>) returns (keywordsEntries: seq<string>, capecEntries: seq<string>, cweEntries: seq<string>)
    requires AllBuilt(data)
    ensures keywordsEntries == Entries(data, KeywordsOf)
    ensures capecEntries == Entries(data, CapecIdsOf)
    ensures cweEntries == Entries(data, CweOf)
  {
    cweEntries, capecEntries, keywordsEntries := [], [], [];
    for i := 0 to |data|
      invariant AllBuilt(data[..i])
      invariant cweEntries == Entries(data[..i], CweOf)
      invariant capecEntries == Entries(data[..i], CapecIdsOf)
      invariant keywordsEntries == Entries(data[..i], KeywordsOf)
    {
      var details := data[i].details.value;
      cweEntries := cweEntries + LowerAll(details.cwe);
      capecEntries := capecEntries + LowerAll(CapecIdsOf(details));
      keywordsEntries := keywordsEntries + LowerAll(details.keywords);
      EntriesStep(data, i, CweOf);
      EntriesStep(data, i, CapecIdsOf);
      EntriesStep(data, i, KeywordsOf);
    }
    assert data[..|data|] == data;
  }

  /**
    `schema` lists the keyword vocabulary `vk`, then the CAPEC vocabulary
    `vc`, then the CWE vocabulary `vw`, each name once, then `base`.
   */
  predicate Layout(schema: seq<string>, vk: set<string>, vc: set<string>, vw: set<string>, base: seq<string>)
  {
    var nk, nc, nw := |vk|, |vc|, |vw|;
    && |schema| == nk + nc + nw + |base|
    && Lists(schema[..nk], vk)
    && Lists(schema[nk..nk + nc], vc)
    && Lists(schema[nk + nc..nk + nc + nw], vw)
    && schema[nk + nc + nw..] == base
  }

  /**
    The feature schema of `data`: the distinct keywords, then the distinct
    CAPEC ids, then the distinct CWE ids (each group lowercased), then the
    synthetic names when `force` holds.
   */
  predicate IsSchema(schema: seq<string>, data: seq<VulnerabilityEvent>, force: bool)
    requires AllBuilt(data)
  {
    Layout(schema, Vocabulary(data, KeywordsOf), Vocabulary(data, CapecIdsOf), Vocabulary(data, CweOf), BaseEntries(force))
  }

  /** `get_available_feature_schema`: lists the three vocabularies of `data` and the synthetic names. */
  method GetAvailableFeatureSchema(data: seq<VulnerabilityEvent>, forceBaseEntries: bool) returns (schema: seq<string>)
    requires AllBuilt(data)
    ensures IsSchema(schema, data, forceBaseEntries)
  {
    var keywordsEntries, capecEntries, cweEntries := CollectEntries(data);
    var addon := if forceBaseEntries then [CvssExpl, RefNumber, DaysDiff] else [];
    var keywords := ListOfSet(keywordsEntries);
    var capec := ListOfSet(capecEntries);
    var cwe := ListOfSet(cweEntries);
    schema := keywords + capec + cwe + addon;
    ListsVocabulary(data, KeywordsOf, keywords);
    ListsVocabulary(data, CapecIdsOf, capec);
    ListsVocabulary(data, CweOf, cwe);
    LayoutOfParts(keywords, capec, cwe, addon, Vocabulary(data, KeywordsOf), Vocabulary(data, CapecIdsOf), Vocabulary(data, CweOf));
  }

  /** Listings of three sets followed by `base` have the schema layout. */
  lemma LayoutOfParts(k: seq<string>, c: seq<string>, w: seq<string>, base: seq<string>,
                      vk: set<string>, vc: set<string>, vw: set<string>)
    requires Lists(k, vk) && |k| == |vk|
    requires Lists(c, vc) && |c| == |vc|
    requires Lists(w, vw) && |w| == |vw|
    ensures Layout(k + c + w + base, vk, vc, vw, base)
  {
    ConcatSlices(k, c, w, base);
  }

  /** A listing of a group's collected entries lists its vocabulary. */
  lemma ListsVocabulary(data: seq<VulnerabilityEvent>, group: Vulnerability -> seq<string>, listed: seq<string>)
    requires AllBuilt(data)
    requires Lists(listed, set x | x in Entries(data, group))
    requires |listed| == |set x | x in Entries(data, group)|
    ensures Lists(listed, Vocabulary(data, group)) && |listed| == |Vocabulary(data, group)|
  {
  }

  /** The four parts of a concatenation are its slices at the running lengths. */
  lemma ConcatSlices(a: seq<string>, b: seq<string>, c: seq<string>, d: seq<string>)
    ensures var s := a + b + c + d;
      && s[..|a|] == a
      && s[|a|..|a| + |b|] == b
      && s[|a| + |b|..|a| + |b| + |c|] == c
      && s[|a| + |b| + |c|..] == d
  {
    var s := a + b + c + d;
    assert s[..|a|] == a;
    assert s[|a|..|a| + |b|] == b;
    assert s[|a| + |b|..|a| + |b| + |c|] == c;
  }

  // =====================================================================
  // Feature vector
  // =====================================================================

  /** `schema.index(x)`: the first position of `x`; `None` where Python raises `ValueError`. */
  function IndexOf(schema: seq<string>, x: string): (r: Option<nat>)
    ensures r.None? <==> x !in schema
    ensures r.Some? ==> r.value < |schema| && schema[r.value] == x && x !in schema[..r.value]
    decreases |schema|
  {
    if schema == [] then None
    else if schema[0] == x then Some(0)
    else
      match IndexOf(schema[1..], x)
      case None => None
      case Some(k) =>
        assert schema[..k + 1] == [schema[0]] + schema[1..][..k];
        Some(k + 1)
  }

  /** The names `get_element_feature` looks up: keywords, then CAPEC ids (never CWE ids). */
  function LookedUp(v: Vulnerability): seq<string>
  {
    v.keywords + CapecIdsOf(v)
  }

  /** Slot `j` is the first occurrence in `schema` of the lowercase form of one of `names`. */
  predicate Marked(schema: seq<string>, names: seq<string>, j: int)
  {
    && 0 <= j < |schema|
    && schema[j] !in schema[..j]
    && schema[j] in LowerAll(names)
  }

  /** The first occurrence of an entry is the position `schema.index` finds. */
  lemma IndexOfFirst(schema: seq<string>, j: nat)
    requires j < |schema| && schema[j] !in schema[..j]
    ensures IndexOf(schema, schema[j]) == Some(j)
  {
  }

  /**
    The one synthetic slot the if/elif chain writes, with its value:
    `__days_diff` if present, else `__ref_number` if present, else
    `__cvss_expl` if present.
   */
  function SyntheticWrite(schema: seq<string>, v: Vulnerability, time: int): (r: Option<(nat, real)>)
    ensures r.None? <==> DaysDiff !in schema && RefNumber !in schema && CvssExpl !in schema
    ensures r.Some? ==> r.value.0 < |schema| && schema[r.value.0] in [DaysDiff, RefNumber, CvssExpl]
    ensures r.Some? ==> IndexOf(schema, schema[r.value.0]) == Some(r.value.0)
    // the chain's priority: `__days_diff` before `__ref_number` before `__cvss_expl`
    ensures r.Some? && schema[r.value.0] != DaysDiff ==> DaysDiff !in schema
    ensures r.Some? && schema[r.value.0] == CvssExpl ==> RefNumber !in schema
    // the value each branch writes
    ensures r.Some? && schema[r.value.0] == DaysDiff ==> r.value.1 == Days(time - v.publishedDate) as real
    ensures r.Some? && schema[r.value.0] == RefNumber ==> r.value.1 == v.referencesNumber as real
    ensures r.Some? && schema[r.value.0] == CvssExpl ==> r.value.1 == v.eScore
  {
    if DaysDiff in schema then Some((IndexOf(schema, DaysDiff).value, Days(time - v.publishedDate) as real))
    else if RefNumber in schema then Some((IndexOf(schema, RefNumber).value, v.referencesNumber as real))
    else if CvssExpl in schema then Some((IndexOf(schema, CvssExpl).value, v.eScore))
    else None
  }

  /** The vector `get_element_feature` returns, slot by slot. */
  function ElementFeature(schema: seq<string>, v: Vulnerability, time: int): (r: seq<real>)
    ensures |r| == |schema|
  {
    var w := SyntheticWrite(schema, v, time);
    seq(|schema|, j requires 0 <= j < |schema| =>
      if w.Some? && w.value.0 == j then w.value.1
      else if Marked(schema, LookedUp(v), j) then 1.0
      else 0.0)
  }

  /** `get_element_feature`: presence indicators for keywords and CAPEC ids, then one synthetic value. */
  method GetElementFeature(schema: seq<string>, vulnerability: Vulnerability, time: int) returns (features: seq<real>)
    ensures features == ElementFeature(schema, vulnerability, time)
  {
    features := seq(|schema|, _ => 0.0);
    var names := vulnerability.keywords + CapecIdsOf(vulnerability);
    for i := 0 to |names|
      invariant |features| == |schema|
      invariant forall j :: 0 <= j < |schema| ==> features[j] == if Marked(schema, names[..i], j) then 1.0 else 0.0
    {
      var x := Lower(names[i]);
      match IndexOf(schema, x) {
        case Some(index) =>
          features := features[index := 1.0];
        case None =>
      }
      assert LowerAll(names[..i + 1]) == LowerAll(names[..i]) + [x];
      forall j | 0 <= j < |schema| && schema[j] == x && x !in schema[..j]
        ensures IndexOf(schema, x) == Some(j)
      {
        IndexOfFirst(schema, j);
      }
    }
    assert names[..|names|] == names;
    if DaysDiff in schema {
      features := features[IndexOf(schema, DaysDiff).value := Days(time - vulnerability.publishedDate) as real];
    } else if RefNumber in schema {
      features := features[IndexOf(schema, RefNumber).value := vulnerability.referencesNumber as real];
    } else if CvssExpl in schema {
      features := features[IndexOf(schema, CvssExpl).value := vulnerability.eScore];
    }
  }

  /** The slot of a looked-up name found in the schema is 1, unless it is the synthetic slot. */
  lemma PresenceSlot(schema: seq<string>, v: Vulnerability, time: int, k: nat)
    requires k < |LookedUp(v)| && Lower(LookedUp(v)[k]) in schema
    ensures var j := IndexOf(schema, Lower(LookedUp(v)[k])).value;
      var w := SyntheticWrite(schema, v, time);
      (w.None? || w.value.0 != j) ==> ElementFeature(schema, v, time)[j] == 1.0
  {
  }

  /** A slot that is neither a first occurrence of a looked-up name nor the synthetic slot stays 0. */
  lemma UnwrittenSlotIsZero(schema: seq<string>, v: Vulnerability, time: int, j: nat)
    requires j < |schema|
    requires forall k :: 0 <= k < |LookedUp(v)| ==> IndexOf(schema, Lower(LookedUp(v)[k])) != Some(j)
    requires SyntheticWrite(schema, v, time).None? || SyntheticWrite(schema, v, time).value.0 != j
    ensures ElementFeature(schema, v, time)[j] == 0.0
  {
    var names := LookedUp(v);
    if Marked(schema, names, j) {
      var k :| 0 <= k < |names| && LowerAll(names)[k] == schema[j];
      IndexOfFirst(schema, j);
      assert false;
    }
  }

  /** A name that is not in the schema changes no slot. */
  lemma AbsentNameChangesNothing(schema: seq<string>, v: Vulnerability, time: int, name: string)
    requires Lower(name) !in schema
    ensures ElementFeature(schema, v.(keywords := v.keywords + [name]), time) == ElementFeature(schema, v, time)
  {
    var v' := v.(keywords := v.keywords + [name]);
    LowerAllAppend(v.keywords, CapecIdsOf(v));
    LowerAllAppend(v.keywords + [name], CapecIdsOf(v));
    LowerAllAppend(v.keywords, [name]);
    assert LookedUp(v') == v.keywords + [name] + CapecIdsOf(v);
    assert LowerAll(LookedUp(v')) == LowerAll(v.keywords) + [Lower(name)] + LowerAll(CapecIdsOf(v));
    assert forall y :: y in schema ==> (y in LowerAll(LookedUp(v')) <==> y in LowerAll(LookedUp(v)));
  }

  /** Lowercasing a list element by element distributes over concatenation. */
  lemma LowerAllAppend(xs: seq<string>, ys: seq<string>)
    ensures LowerAll(xs + ys) == LowerAll(xs) + LowerAll(ys)
  {
  }

  /** The CWE ids are never looked up: they do not influence the vector. */
  lemma CweNotLookedUp(schema: seq<string>, v: Vulnerability, time: int, cwe: seq<string>)
    ensures ElementFeature(schema, v.(cwe := cwe), time) == ElementFeature(schema, v, time)
  {
  }

  /**
    The if/elif chain writes one synthetic slot: with `__days_diff` present,
    the `__ref_number` and `__cvss_expl` slots keep 0 unless a looked-up
    name happens to mark them.
   */
  lemma OnlyDaysDiffWritten(schema: seq<string>, v: Vulnerability, time: int)
    requires DaysDiff in schema
    ensures ElementFeature(schema, v, time)[IndexOf(schema, DaysDiff).value] == Days(time - v.publishedDate) as real
    ensures RefNumber in schema && RefNumber !in LowerAll(LookedUp(v)) ==>
      ElementFeature(schema, v, time)[IndexOf(schema, RefNumber).value] == 0.0
    ensures CvssExpl in schema && CvssExpl !in LowerAll(LookedUp(v)) ==>
      ElementFeature(schema, v, time)[IndexOf(schema, CvssExpl).value] == 0.0
  {
  }

  /**
    Without `__days_diff`, the `__ref_number` slot holds the reference count
    and the `__cvss_expl` slot keeps 0 unless a looked-up name marks it.
   */
  lemma OnlyRefNumberWritten(schema: seq<string>, v: Vulnerability, time: int)
    requires DaysDiff !in schema && RefNumber in schema
    ensures ElementFeature(schema, v, time)[IndexOf(schema, RefNumber).value] == v.referencesNumber as real
    ensures CvssExpl in schema && CvssExpl !in LowerAll(LookedUp(v)) ==>
      ElementFeature(schema, v, time)[IndexOf(schema, CvssExpl).value] == 0.0
  {
  }

  /** With neither `__days_diff` nor `__ref_number`, the `__cvss_expl` slot holds the exploitability score. */
  lemma OnlyCvssExplWritten(schema: seq<string>, v: Vulnerability, time: int)
    requires DaysDiff !in schema && RefNumber !in schema && CvssExpl in schema
    ensures ElementFeature(schema, v, time)[IndexOf(schema, CvssExpl).value] == v.eScore
  {
  }

  /** With none of the three synthetic names, every slot is a presence indicator. */
  lemma NothingSyntheticWritten(schema: seq<string>, v: Vulnerability, time: int, j: nat)
    requires DaysDiff !in schema && RefNumber !in schema && CvssExpl !in schema
    requires j < |schema|
    ensures ElementFeature(schema, v, time)[j] == if Marked(schema, LookedUp(v), j) then 1.0 else 0.0
  {
  }

  // =====================================================================
  // Target function
  // =====================================================================

  /** `item` is another event of the same vulnerability, 0 to 31 whole days before `ev`. */
  predicate InWindow(item: VulnerabilityEvent, ev: VulnerabilityEvent)
  {
    item.id == ev.id && 0 <= Days(ev.date - item.date) <= 31 && item != ev
  }

  /** The events of `data` inside the window of `ev`, in order. */
  function Window(data: seq<VulnerabilityEvent>, ev: VulnerabilityEvent): (r: seq<VulnerabilityEvent>)
    ensures |r| <= |data|
    ensures forall i :: 0 <= i < |r| ==> InWindow(r[i], ev)
    decreases |data|
  {
    if data == [] then []
    else Window(data[..|data| - 1], ev) + (if InWindow(data[|data| - 1], ev) then [data[|data| - 1]] else [])
  }

  lemma {:induction false} WindowMembership(data: seq<VulnerabilityEvent>, ev: VulnerabilityEvent, x: VulnerabilityEvent)
    ensures x in Window(data, ev) <==> x in data && InWindow(x, ev)
    decreases |data|
  {
    if data != [] {
      var n := |data| - 1;
      WindowMembership(data[..n], ev, x);
      assert data == data[..n] + [data[n]];
    }
  }

  /** The window of a concatenation is the windows of the parts, in order, so `Window` keeps data order and multiplicity. */
  lemma {:induction false} WindowAppend(a: seq<VulnerabilityEvent>, b: seq<VulnerabilityEvent>, ev: VulnerabilityEvent)
    ensures Window(a + b, ev) == Window(a, ev) + Window(b, ev)
    decreases |b|
  {
    if b == [] {
      assert a + b == a;
    } else {
      var n := |b| - 1;
      WindowAppend(a, b[..n], ev);
      assert (a + b)[..|a + b| - 1] == a + b[..n];
    }
  }

  /** A single event is in its own window exactly when it is in the window of `ev`. */
  lemma WindowSingle(x: VulnerabilityEvent, ev: VulnerabilityEvent)
    ensures Window([x], ev) == if InWindow(x, ev) then [x] else []
  {
    assert [x][..0] == [];
  }

  /** The number of positive outcomes among `events`. */
  function Positives(events: seq<VulnerabilityEvent>): (n: nat)
    ensures n <= |events|
    decreases |events|
  {
    if events == [] then 0
    else Positives(events[..|events| - 1]) + (if events[|events| - 1].outcome then 1 else 0)
  }

  /**
    `get_target_function_value`: the override when there is one; otherwise
    the exploitability score scaled by the rate of positive outcomes in the
    window, or the plain score when the window is empty.
   */
  method GetTargetFunctionValue(data: seq<VulnerabilityEvent>, vulnEvent: VulnerabilityEvent) returns (r: real)
    requires vulnEvent.details.Some?
    ensures var v := vulnEvent.details.value; var w := Window(data, vulnEvent);
      && (v.target.Some? ==> r == v.target.value)
      && (v.target.None? && w == [] ==> r == v.eScore)
      && (v.target.None? && w != [] ==> r == v.eScore * ((Positives(w) as real) / (|w| as real)))
      && (v.target.None? && 0.0 <= v.eScore ==> 0.0 <= r <= v.eScore)
  {
    var validEvents: seq<VulnerabilityEvent> := [];
    if vulnEvent.details.value.target.Some? {
      return vulnEvent.details.value.target.value;
    }
    for i := 0 to |data|
      invariant validEvents == Window(data[..i], vulnEvent)
    {
      var item := data[i];
      assert data[..i + 1][..i] == data[..i];
      if vulnEvent.id != item.id {
        continue;
      }
      var diff := Days(vulnEvent.date - item.date);
      if 0 <= diff <= 31 && item != vulnEvent {
        validEvents := validEvents + [item];
      }
    }
    assert data[..|data|] == data;
    var pos := Positives(validEvents);
    var eScore := vulnEvent.details.value.eScore;
    if |validEvents| == 0 {
      return eScore;
    }
    r := eScore * ((pos as real) / (|validEvents| as real));
    ScaledScoreBounds(eScore, pos, |validEvents|);
  }

  /** A score scaled by a rate `pos / n` with `pos <= n` stays between 0 and the score. */
  lemma ScaledScoreBounds(e: real, pos: nat, n: nat)
    requires pos <= n && 0 < n
    ensures 0.0 <= e ==> 0.0 <= e * ((pos as real) / (n as real)) <= e
  {
    var rate := (pos as real) / (n as real);
    assert rate * (n as real) == pos as real;
    assert 0.0 <= rate <= 1.0;
    if 0.0 <= e {
      assert e * rate <= e * 1.0;
    }
  }

  // =====================================================================
  // Masked schema
  // =====================================================================

  /** The number of `true` entries of `f`. */
  function CountTrue(f: seq<bool>): (n: nat)
    ensures n <= |f|
    decreases |f|
  {
    if f == [] then 0 else CountTrue(f[..|f| - 1]) + (if f[|f| - 1] then 1 else 0)
  }

  /**
    `get_filtered_schema`: the entries whose mask bit is set, in order. The
    entry at a kept position `i` lands at the number of kept positions
    before `i`, so the result is exactly that subsequence.
   */
  method GetFilteredSchema(schema: seq<string>, filter: seq<bool>) returns (ret: seq<string>)
    requires |filter| >= |schema|
    ensures |ret| == CountTrue(filter[..|schema|]) <= |schema|
    ensures forall i :: 0 <= i < |schema| && filter[i] ==>
      CountTrue(filter[..i]) < |ret| && ret[CountTrue(filter[..i])] == schema[i]
    ensures forall x :: x in ret ==> exists i :: 0 <= i < |schema| && filter[i] && schema[i] == x
  {
    ret := [];
    for i := 0 to |schema|
      invariant |ret| == CountTrue(filter[..i])
      invariant forall k :: 0 <= k < i && filter[k] ==> CountTrue(filter[..k]) < |ret| && ret[CountTrue(filter[..k])] == schema[k]
      invariant forall x :: x in ret ==> exists k :: 0 <= k < i && filter[k] && schema[k] == x
    {
      assert filter[..i + 1][..i] == filter[..i];
      if filter[i] {
        ret := ret + [schema[i]];
      }
    }
  }

  // =====================================================================
  // Record builder
  // =====================================================================

  /**
    `[(item['id'], item['name']) for item in info['capec']]`, or `[]` when
    the key is absent or an item lacks one of its keys (the `KeyError` is
    caught).
   */
  function CapecPairs(capec: Option<seq<CapecEntry>>): (r: seq<(string, string)>)
    ensures r != [] ==> (capec.Some? && |r| == |capec.value| &&
      forall i :: 0 <= i < |r| ==> capec.value[i].id == Some(r[i].0) && capec.value[i].name == Some(r[i].1))
    ensures capec.Some? && (forall i :: 0 <= i < |capec.value| ==> capec.value[i].id.Some? && capec.value[i].name.Some?) ==>
      |r| == |capec.value| &&
      forall i :: 0 <= i < |r| ==> r[i] == (capec.value[i].id.value, capec.value[i].name.value)
    ensures capec.None? ==> r == []
    ensures capec.Some? && (exists i :: 0 <= i < |capec.value| && (capec.value[i].id.None? || capec.value[i].name.None?)) ==> r == []
  {
    if capec.None? || exists i :: 0 <= i < |capec.value| && (capec.value[i].id.None? || capec.value[i].name.None?) then []
    else seq(|capec.value|, i requires 0 <= i < |capec.value| => (capec.value[i].id.value, capec.value[i].name.value))
  }

  const CwePrefix: string := "CWE"

  /** The values of one problem-type entry that start with "CWE", in order. */
  function CweIn(values: seq<string>): (r: seq<string>)
    ensures |r| <= |values|
    ensures forall i :: 0 <= i < |r| ==> StartsWith(r[i], CwePrefix)
    decreases |values|
  {
    if values == [] then []
    else CweIn(values[..|values| - 1]) + (if StartsWith(values[|values| - 1], CwePrefix) then [values[|values| - 1]] else [])
  }

  /** The CWE values of all problem-type entries, entry after entry. */
  function CweValues(problems: seq<seq<string>>): seq<string>
    decreases |problems|
  {
    if problems == [] then [] else CweValues(problems[..|problems| - 1]) + CweIn(problems[|problems| - 1])
  }

  /** Filtering the "CWE" values keeps their order: it distributes over concatenation. */
  lemma {:induction false} CweInAppend(a: seq<string>, b: seq<string>)
    ensures CweIn(a + b) == CweIn(a) + CweIn(b)
    decreases |b|
  {
    if b != [] {
      var n := |b| - 1;
      CweInAppend(a, b[..n]);
      assert (a + b)[..|a + b| - 1] == a + b[..n];
      assert (a + b)[|a + b| - 1] == b[n];
    } else {
      assert a + b == a;
    }
  }

  /** The CWE values of two lists of problem types are those of the first, then those of the second. */
  lemma {:induction false} CweValuesAppend(a: seq<seq<string>>, b: seq<seq<string>>)
    ensures CweValues(a + b) == CweValues(a) + CweValues(b)
    decreases |b|
  {
    if b != [] {
      var n := |b| - 1;
      CweValuesAppend(a, b[..n]);
      assert (a + b)[..|a + b| - 1] == a + b[..n];
      assert (a + b)[|a + b| - 1] == b[n];
    } else {
      assert a + b == a;
    }
  }

  lemma {:induction false} CweInMembership(values: seq<string>, x: string)
    ensures x in CweIn(values) <==> x in values && StartsWith(x, CwePrefix)
    decreases |values|
  {
    if values != [] {
      var n := |values| - 1;
      CweInMembership(values[..n], x);
      assert values == values[..n] + [values[n]];
    }
  }

  /** A value is a CWE id of the record exactly when it occurs in some problem type and starts with "CWE". */
  lemma {:induction false} CweValuesMembership(problems: seq<seq<string>>, x: string)
    ensures x in CweValues(problems) <==>
      StartsWith(x, CwePrefix) && exists i :: 0 <= i < |problems| && x in problems[i]
    decreases |problems|
  {
    if problems != [] {
      var n := |problems| - 1;
      var front := problems[..n];
      assert CweValues(problems) == CweValues(front) + CweIn(problems[n]);
      CweValuesMembership(front, x);
      CweInMembership(problems[n], x);
      if x in CweValues(problems) {
        if x in CweValues(front) {
          var i :| 0 <= i < |front| && x in front[i];
          assert problems[i] == front[i];
        } else {
          assert x in problems[n];
        }
      } else if StartsWith(x, CwePrefix) {
        forall i | 0 <= i < |problems|
          ensures x !in problems[i]
        {
          if i < n {
            assert problems[i] == front[i];
          }
        }
      }
    }
  }

  /** What `get_vulnerability` builds from the record: `None` when a CVSS v3 field is missing. */
  function BuildVulnerability(info: Record, keyParser: string -> seq<string>, parseDate: string -> int,
                              skipCapec: bool, skipKeywords: bool, skipCwe: bool, target: Option<real>): Option<Vulnerability>
  {
    if info.exploitabilityScore.None? || info.vectorString.None? then None
    else Some(Vulnerability(
      if skipKeywords then [] else keyParser(info.description),
      if skipCapec then [] else CapecPairs(info.capec),
      if skipCwe then [] else CweValues(info.problemTypes),
      info.exploitabilityScore.value,
      info.vectorString.value,
      |info.references|,
      parseDate(info.publishedDate),
      info.history,
      target))
  }

  /** One more problem type adds its CWE values at the end. */
  lemma CweValuesStep(problems: seq<seq<string>>, i: nat)
    requires i < |problems|
    ensures CweValues(problems[..i + 1]) == CweValues(problems[..i]) + CweIn(problems[i])
  {
    assert problems[..i + 1][..i] == problems[..i];
  }

  /** One more value adds itself at the end when it starts with "CWE". */
  lemma CweInStep(values: seq<string>, j: nat)
    requires j < |values|
    ensures CweIn(values[..j + 1]) == CweIn(values[..j]) + (if StartsWith(values[j], CwePrefix) then [values[j]] else [])
  {
    assert values[..j + 1][..j] == values[..j];
  }

  /** The nested loop of `get_vulnerability` that gathers the "CWE" values of every problem type. */
  method CollectCwe(problems: seq<seq<string>>) returns (cwe: seq<string>)
    ensures cwe == CweValues(problems)
  {
    cwe := [];
    for i := 0 to |problems|
      invariant cwe == CweValues(problems[..i])
    {
      var details := problems[i];
      for j := 0 to |details|
        invariant cwe == CweValues(problems[..i]) + CweIn(details[..j])
      {
        CweInStep(details, j);
        if StartsWith(details[j], CwePrefix) {
          cwe := cwe + [details[j]];
        }
      }
      assert details[..|details|] == details;
      CweValuesStep(problems, i);
    }
    assert problems[..|problems|] == problems;
  }

  /**
    `get_vulnerability`: looks the record up and assembles the vulnerability,
    collecting the CWE values with the nested loop of the source.
   */
  method GetVulnerability(cveId: string, findCveById: string -> Record, keyParser: string -> seq<string>,
                          parseDate: string -> int, skipCapec: bool, skipKeywords: bool, skipCwe: bool,
                          target: Option<real>)
    returns (r: Option<Vulnerability>)
    ensures r == BuildVulnerability(findCveById(cveId), keyParser, parseDate, skipCapec, skipKeywords, skipCwe, target)
  {
    var info := findCveById(cveId);
    var keywords := if skipKeywords then [] else keyParser(info.description);
    var capec := if skipCapec then [] else CapecPairs(info.capec);
    var cwe: seq<string> := [];
    if !skipCwe {
      cwe := CollectCwe(info.problemTypes);
    }
    if info.exploitabilityScore.None? || info.vectorString.None? {
      return None;
    }
    r := Some(Vulnerability(keywords, capec, cwe, info.exploitabilityScore.value, info.vectorString.value,
                            |info.references|, parseDate(info.publishedDate), info.history, target));
  }

  /**
    What the built vulnerability holds: nothing exactly when a CVSS v3 field
    is missing; otherwise the record's score and reference count, exactly
    the "CWE" values of its problem types unless skipped, and no CAPEC
    pairs or keywords when those are skipped or the CAPEC key is absent.
   */
  lemma BuildVulnerabilityFields(info: Record, keyParser: string -> seq<string>, parseDate: string -> int,
                                 skipCapec: bool, skipKeywords: bool, skipCwe: bool, target: Option<real>)
    ensures var r := BuildVulnerability(info, keyParser, parseDate, skipCapec, skipKeywords, skipCwe, target);
      && (r.None? <==> info.exploitabilityScore.None? || info.vectorString.None?)
      && (r.Some? ==> r.value.eScore == info.exploitabilityScore.value && r.value.referencesNumber == |info.references|)
      && (r.Some? ==> forall x :: x in r.value.cwe <==>
            !skipCwe && StartsWith(x, CwePrefix) && exists i :: 0 <= i < |info.problemTypes| && x in info.problemTypes[i])
      && (r.Some? && (skipCapec || info.capec.None?) ==> r.value.capec == [])
      && (r.Some? && skipKeywords ==> r.value.keywords == [])
      && (r.Some? ==> r.value.target == target)
      && (r.Some? ==> r.value.cwe == (if skipCwe then [] else CweValues(info.problemTypes)))
      && (r.Some? ==> r.value.capec == (if skipCapec then [] else CapecPairs(info.capec)))
      && (r.Some? ==> r.value.keywords == (if skipKeywords then [] else keyParser(info.description)))
  {
    forall x ensures x in CweValues(info.problemTypes) <==>
      StartsWith(x, CwePrefix) && exists i :: 0 <= i < |info.problemTypes| && x in info.problemTypes[i]
    {
      CweValuesMembership(info.problemTypes, x);
    }
  }
}
