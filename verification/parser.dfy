/**
  The parsers: `KeywordsParser`, which keeps the RAKE phrases scored above
  1.0 and normalises them against the exception table, and
  `HistoryParser`, which turns the rows of the outcome history into
  vulnerability events.
 */
module Parser {
  import opened Wrappers
  import opened Strings
  import opened Data
  import Utils

  // =====================================================================
  // The exception table
  // =====================================================================

  /** A row of the exception table: type, match string and an optional replacement. */
  type ExceptionRow = row: seq<string> | |row| >= 2 witness ["", ""]

  /**
    One normalisation rule. `kind` "m" matches the whole keyword, "c" any
    part of it; without a replacement the keyword is dropped.
   */
  datatype Rule = Rule(kind: string, pattern: string, replacement: Option<string>)

  /** A table row with every cell lowercased; a two-column row has no replacement. */
  function RuleOf(row: ExceptionRow): Rule
  {
    Rule(Lower(row[0]), Lower(row[1]), if |row| == 2 then None else Some(Lower(row[2])))
  }

  function RulesOf(rows: seq<ExceptionRow>): seq<Rule>
  {
    seq(|rows|, i requires 0 <= i < |rows| => RuleOf(rows[i]))
  }

  const Exact: string := "m"
  const Partial: string := "c"

  /** Whether `rule` fires on the lowercased keyword `low`. */
  predicate Matches(rule: Rule, low: string)
  {
    (rule.kind == Exact && low == rule.pattern) || (rule.kind == Partial && Contains(low, rule.pattern))
  }

  /** What a rule that fired produces: `None` drops the keyword, otherwise the tidied rewrite. */
  function Rewrite(rule: Rule, low: string): Option<string>
  {
    match rule.replacement
    case None => None
    case Some(rep) => Some(Tidy(if rule.kind == Exact then rep else ReplaceAll(low, rule.pattern, rep)))
  }

  /** The rules tried in table order: the first that fires decides; none firing keeps `low`. */
  function Decide(rules: seq<Rule>, low: string): Option<string>
    decreases |rules|
  {
    if rules == [] then Some(low)
    else if Matches(rules[0], low) then Rewrite(rules[0], low)
    else Decide(rules[1..], low)
  }

  /** The output, if any, for one keyword. */
  function TransformOne(rules: seq<Rule>, keyword: string): Option<string>
  {
    Decide(rules, Lower(keyword))
  }

  /** The outputs for a list of keywords, in input order. */
  function Transformed(rules: seq<Rule>, keywords: seq<string>): (r: seq<string>)
    ensures |r| <= |keywords|
    decreases |keywords|
  {
    if keywords == [] then []
    else Transformed(rules, keywords[..|keywords| - 1]) + AsSeq(TransformOne(rules, keywords[|keywords| - 1]))
  }

  /** The first rule that fires decides; the rules after it are not consulted. */
  lemma {:induction false} FirstMatchDecides(rules: seq<Rule>, j: nat, low: string)
    requires j < |rules| && Matches(rules[j], low)
    requires forall k :: 0 <= k < j ==> !Matches(rules[k], low)
    ensures Decide(rules, low) == Rewrite(rules[j], low)
    decreases j
  {
    if j > 0 {
      assert !Matches(rules[0], low);
      FirstMatchDecides(rules[1..], j - 1, low);
    }
  }

  /** A keyword no rule fires on comes out lowercased and otherwise unchanged. */
  lemma {:induction false} NoMatchKeeps(rules: seq<Rule>, low: string)
    requires forall k :: 0 <= k < |rules| ==> !Matches(rules[k], low)
    ensures Decide(rules, low) == Some(low)
    decreases |rules|
  {
    if rules != [] {
      assert !Matches(rules[0], low);
      NoMatchKeeps(rules[1..], low);
    }
  }

  /**
    Every output is either the lowercased keyword (no rule fired) or a
    rewrite, which is stripped and has no two consecutive spaces.
   */
  lemma {:induction false} OutputShape(rules: seq<Rule>, low: string)
    ensures Decide(rules, low) == Some(low) ||
      Decide(rules, low) == None ||
      (IsStripped(Decide(rules, low).value) && !Contains(Decide(rules, low).value, DoubleSpace))
    ensures Decide(rules, low) == None ==> exists k :: 0 <= k < |rules| && Matches(rules[k], low) && rules[k].replacement.None?
    decreases |rules|
  {
    if rules != [] && !Matches(rules[0], low) {
      OutputShape(rules[1..], low);
      if Decide(rules, low) == None {
        var k :| 0 <= k < |rules[1..]| && Matches(rules[1..][k], low) && rules[1..][k].replacement.None?;
        assert rules[k + 1] == rules[1..][k];
      }
    }
  }

  /** Normalisation maps each keyword on its own: it distributes over concatenation. */
  lemma {:induction false} TransformedAppend(rules: seq<Rule>, a: seq<string>, b: seq<string>)
    ensures Transformed(rules, a + b) == Transformed(rules, a) + Transformed(rules, b)
    decreases |b|
  {
    if b != [] {
      var n := |b| - 1;
      TransformedAppend(rules, a, b[..n]);
      var last := AsSeq(TransformOne(rules, b[n]));
      assert (a + b)[..|a + b| - 1] == a + b[..n];
      assert (a + b)[|a + b| - 1] == b[n];
      calc {
        Transformed(rules, a + b);
        Transformed(rules, a + b[..n]) + last;
        Transformed(rules, a) + Transformed(rules, b[..n]) + last;
        Transformed(rules, a) + (Transformed(rules, b[..n]) + last);
      }
    } else {
      assert a + b == a;
    }
  }

  /**
    Normalising twice is not normalising once: a rewrite can fire its rule
    again. With the one rule ("c", "a", "aa"), "a" becomes "aa" and "aa"
    then becomes "aaaa".
   */
  lemma RenormalisingRewritesAgain()
    ensures var rules := [Rule(Partial, "a", Some("aa"))];
      && Transformed(rules, ["a"]) == ["aa"]
      && Transformed(rules, Transformed(rules, ["a"])) == ["aaaa"]
  {
    var rules := [Rule(Partial, "a", Some("aa"))];
    DoublingRewrite("a");
    assert "a" + "a" == "aa";
    assert Transformed(rules, ["a"]) == ["aa"];
    DoublingRewrite("aa");
    assert "aa" + "aa" == "aaaa";
  }

  /** Under the rule ("c", "a", "aa"), the keyword "a" or "aa" comes out doubled. */
  lemma DoublingRewrite(k: string)
    requires k == "a" || k == "aa"
    ensures Transformed([Rule(Partial, "a", Some("aa"))], [k]) == [k + k]
  {
    var rule := Rule(Partial, "a", Some("aa"));
    LowerNoUpper(k);
    DoublingDecide(rule, k);
    assert [k][..0] == [];
  }

  lemma DoublingDecide(rule: Rule, k: string)
    requires rule == Rule(Partial, "a", Some("aa"))
    requires k == "a" || k == "aa"
    ensures Decide([rule], k) == Some(k + k)
  {
    assert k[..1] == "a";
    assert Matches(rule, k);
    DoublingReplace(k);
    TidyNoSpace(k + k);
  }

  lemma DoublingReplace(k: string)
    requires k == "a" || k == "aa"
    ensures ReplaceAll(k, "a", "aa") == k + k
  {
    assert k[..1] == "a";
    if k == "aa" {
      assert k[1..] == "a";
      assert "a"[..1] == "a";
    }
    assert "a"[1..] == [];
  }

  // =====================================================================
  // Keyword extraction
  // =====================================================================

  /** The phrases RAKE scored strictly above 1.0, in RAKE's order. */
  function Phrases(scored: seq<(string, real)>): (r: seq<string>)
    ensures |r| <= |scored|
    ensures forall x :: x in r ==> exists i :: 0 <= i < |scored| && scored[i].0 == x && scored[i].1 > 1.0
    ensures forall i :: 0 <= i < |scored| && scored[i].1 > 1.0 ==> scored[i].0 in r
    decreases |scored|
  {
    if scored == [] then []
    else
      var n := |scored| - 1;
      var front := Phrases(scored[..n]);
      assert forall i :: 0 <= i < n ==> scored[..n][i] == scored[i];
      front + (if scored[n].1 > 1.0 then [scored[n].0] else [])
  }

  /** `KeywordsParser.parse` of a table and a scorer, as the function the record builder is given. */
  function KeywordParser(rules: seq<Rule>, rake: string -> seq<(string, real)>): string -> seq<string>
  {
    text => Transformed(rules, Phrases(rake(text)))
  }

  class KeywordsParser {
    const exceptions: seq<Rule>
    /** The RAKE scorer: candidate phrases of a text with their scores. */
    const rake: string -> seq<(string, real)>

    /** Reads the exception table (given here as its rows), lowercasing every cell. */
    constructor (rows: seq<ExceptionRow>, rake: string -> seq<(string, real)>)
      ensures exceptions == RulesOf(rows)
      ensures this.rake == rake
    {
      var table: seq<Rule> := [];
      for i := 0 to |rows|
        invariant table == RulesOf(rows[..i])
      {
        table := table + [RuleOf(rows[i])];
      }
      assert rows[..|rows|] == rows;
      exceptions := table;
      this.rake := rake;
    }

    /** `parse`: the phrases scored above 1.0, normalised. */
    method Parse(text: string) returns (ret: seq<string>)
      ensures ret == KeywordParser(exceptions, rake)(text)
      ensures |ret| <= |rake(text)|
    {
      var keywords := rake(text);
      var phrases := Phrases(keywords);
      ret := TransformKeywords(phrases);
    }

    /**
      `_transform_keywords`: each keyword, lowercased, is run through the
      rules in order until one fires; it is then dropped or rewritten, and
      kept lowercased when none fires.
     */
    method TransformKeywords(keywords: seq<string>) returns (ret: seq<string>)
      ensures ret == Transformed(exceptions, keywords)
    {
      ret := [];
      for i := 0 to |keywords|
        invariant ret == Transformed(exceptions, keywords[..i])
      {
        var keyword := keywords[i];
        var lowKeyword := Lower(keyword);
        assert keywords[..i + 1][..i] == keywords[..i];
        ghost var before := ret;
        var toAppend: Option<string> := None;
        var ignore := false;
        var j := 0;
        while j < |exceptions|
          invariant 0 <= j <= |exceptions|
          invariant !ignore && toAppend.None? && ret == before
          invariant forall k :: 0 <= k < j ==> !Matches(exceptions[k], lowKeyword)
        {
          var ex := exceptions[j];
          if ex.kind == Exact && lowKeyword == ex.pattern {
            if ex.replacement.None? {
              ignore := true;
            } else {
              toAppend := Some(ex.replacement.value);
            }
          } else if ex.kind == Partial && Contains(lowKeyword, ex.pattern) {
            if ex.replacement.None? {
              ignore := true;
            } else {
              toAppend := Some(ReplaceAll(lowKeyword, ex.pattern, ex.replacement.value));
            }
          }
          if ignore {
            FirstMatchDecides(exceptions, j, lowKeyword);
            break;
          }
          if toAppend.Some? {
            var t := Strip(toAppend.value);
            while Contains(t, DoubleSpace)
              invariant CollapseSpaces(t) == CollapseSpaces(Strip(toAppend.value))
              decreases |t|
            {
              ReplaceShrinks(t, DoubleSpace, Space);
              t := ReplaceAll(t, DoubleSpace, Space);
            }
            FirstMatchDecides(exceptions, j, lowKeyword);
            toAppend := Some(t);
            ret := ret + [t];
            break;
          }
          j := j + 1;
        }
        if toAppend.None? && !ignore {
          NoMatchKeeps(exceptions, lowKeyword);
          ret := ret + [Lower(keyword)];
        }
      }
      assert keywords[..|keywords|] == keywords;
    }
  }

  // =====================================================================
  // History loading
  // =====================================================================

  /** The collaborators the loader reaches outside the core. */
  datatype Environment = Environment(
    findCveById: string -> Record,          // the CVE data source
    parseDate: string -> int,               // a record's publishedDate, in seconds
    eventDate: string -> int,               // an event's date cell, in seconds
    eventOutcome: string -> bool,           // an event's outcome cell
    rake: string -> seq<(string, real)>,    // the keyword scorer
    exceptionRows: seq<ExceptionRow>        // the exception table
  )

  /** A row of the history file, by column name. */
  type Row = map<string, string>

  const MinAgeDays: int := 365

  /** The vulnerability `id` was published at least 365 whole days before `today`. */
  predicate OldEnough(env: Environment, id: string, today: int)
  {
    Days(today - env.parseDate(env.findCveById(id).publishedDate)) >= MinAgeDays
  }

  /** Each row has an id, and each row that is not skipped has the date and outcome cells read. */
  predicate Readable(env: Environment, rows: seq<Row>, today: int)
  {
    forall i :: 0 <= i < |rows| ==>
      "id" in rows[i] && (OldEnough(env, rows[i]["id"], today) ==> "data" in rows[i] && "outcome" in rows[i])
  }

  /** The details of the last event of `events` with this id; `None` if there is none. */
  function LastDetails(events: seq<VulnerabilityEvent>, id: string): (r: Option<Vulnerability>)
    ensures r.Some? ==> exists k :: 0 <= k < |events| && events[k].id == id && events[k].details == r
    decreases |events|
  {
    if events == [] then None
    else if events[|events| - 1].id == id then events[|events| - 1].details
    else
      var front := events[..|events| - 1];
      var r := LastDetails(front, id);
      assert forall k :: 0 <= k < |front| ==> front[k] == events[k];
      r
  }

  /** The details found are those of the last event with this id, and only of that one. */
  lemma {:induction false} LastDetailsIsLast(events: seq<VulnerabilityEvent>, id: string, k: nat)
    requires k < |events| && events[k].id == id
    requires forall m :: k < m < |events| ==> events[m].id != id
    ensures LastDetails(events, id) == events[k].details
    decreases |events|
  {
    var n := |events| - 1;
    if k < n {
      assert events[n].id != id;
      var front := events[..n];
      assert front[k] == events[k];
      LastDetailsIsLast(front, id, k);
    }
  }

  /** With no earlier event of this id there is nothing to reuse. */
  lemma {:induction false} LastDetailsAbsent(events: seq<VulnerabilityEvent>, id: string)
    requires forall m :: 0 <= m < |events| ==> events[m].id != id
    ensures LastDetails(events, id) == None
    decreases |events|
  {
    if events != [] {
      var front := events[..|events| - 1];
      assert forall m :: 0 <= m < |front| ==> front[m] == events[m];
      LastDetailsAbsent(front, id);
    }
  }

  /** What `get_vulnerability` builds for `id` with the loader's defaults. */
  function Fetch(env: Environment, id: string): Option<Vulnerability>
  {
    Utils.BuildVulnerability(env.findCveById(id), KeywordParser(RulesOf(env.exceptionRows), env.rake),
                             env.parseDate, false, false, false, None)
  }

  /** The event for an accepted row, given the events loaded before it. */
  function NewEvent(env: Environment, loaded: seq<VulnerabilityEvent>, row: Row): VulnerabilityEvent
    requires "id" in row && "data" in row && "outcome" in row
  {
    var reused := LastDetails(loaded, row["id"]);
    var details := if reused.Some? then reused else Fetch(env, row["id"]);
    VulnerabilityEvent(row["id"], env.eventDate(row["data"]), env.eventOutcome(row["outcome"]), details)
  }

  /** The events `load` collects from `rows`, in row order. */
  function Loaded(env: Environment, rows: seq<Row>, today: int): seq<VulnerabilityEvent>
    requires Readable(env, rows, today)
    decreases |rows|
  {
    if rows == [] then []
    else
      var n := |rows| - 1;
      assert Readable(env, rows[..n], today) by {
        assert forall i :: 0 <= i < n ==> rows[..n][i] == rows[i];
      }
      var loaded := Loaded(env, rows[..n], today);
      if OldEnough(env, rows[n]["id"], today) then loaded + [NewEvent(env, loaded, rows[n])] else loaded
  }

  /** The rows `load` does not skip, in order. */
  function Accepted(env: Environment, rows: seq<Row>, today: int): (r: seq<Row>)
    requires Readable(env, rows, today)
    ensures Readable(env, r, today)
    ensures forall i :: 0 <= i < |r| ==> OldEnough(env, r[i]["id"], today)
    decreases |rows|
  {
    if rows == [] then []
    else
      var n := |rows| - 1;
      assert Readable(env, rows[..n], today) by {
        assert forall i :: 0 <= i < n ==> rows[..n][i] == rows[i];
      }
      var front := Accepted(env, rows[..n], today);
      if OldEnough(env, rows[n]["id"], today) then front + [rows[n]] else front
  }

  /** A row is accepted exactly when it is a row of the file whose vulnerability is old enough. */
  lemma {:induction false} AcceptedMembership(env: Environment, rows: seq<Row>, today: int, row: Row)
    requires Readable(env, rows, today)
    ensures row in Accepted(env, rows, today) <==> row in rows && "id" in row && OldEnough(env, row["id"], today)
    decreases |rows|
  {
    if rows != [] {
      var n := |rows| - 1;
      assert Readable(env, rows[..n], today) by {
        assert forall i :: 0 <= i < n ==> rows[..n][i] == rows[i];
      }
      AcceptedMembership(env, rows[..n], today, row);
      assert rows == rows[..n] + [rows[n]];
    }
  }

  /**
    One event per accepted row, in row order, carrying that row's id, date
    and outcome, whether or not its details could be built; so every event
    is of a vulnerability published at least 365 days before `today`.
   */
  lemma {:induction false} LoadedFollowsRows(env: Environment, rows: seq<Row>, today: int)
    requires Readable(env, rows, today)
    ensures var events, acc := Loaded(env, rows, today), Accepted(env, rows, today);
      && |events| == |acc|
      && forall k :: 0 <= k < |events| ==>
        && events[k].id == acc[k]["id"]
        && events[k].date == env.eventDate(acc[k]["data"])
        && events[k].outcome == env.eventOutcome(acc[k]["outcome"])
        && OldEnough(env, events[k].id, today)
    decreases |rows|
  {
    if rows != [] {
      var n := |rows| - 1;
      assert Readable(env, rows[..n], today) by {
        assert forall i :: 0 <= i < n ==> rows[..n][i] == rows[i];
      }
      LoadedFollowsRows(env, rows[..n], today);
    }
  }

  /** Every event of `events` carries the details a fresh build for its id gives. */
  predicate AllFetched(env: Environment, events: seq<VulnerabilityEvent>)
  {
    forall k :: 0 <= k < |events| ==> events[k].details == Fetch(env, events[k].id)
  }

  /**
    Reusing details is invisible: every loaded event carries exactly the
    details a fresh `get_vulnerability` for its id would build. This holds
    because the lookup is a function of the id; a loader that never reused
    details would meet it too, so the reuse scan itself is stated by
    `NewEvent` and `LastDetailsIsLast`.
   */
  lemma {:induction false} LoadedDetailsAreFetched(env: Environment, rows: seq<Row>, today: int)
    requires Readable(env, rows, today)
    ensures AllFetched(env, Loaded(env, rows, today))
    decreases |rows|
  {
    if rows != [] {
      var n := |rows| - 1;
      assert Readable(env, rows[..n], today) by {
        assert forall i :: 0 <= i < n ==> rows[..n][i] == rows[i];
      }
      LoadedDetailsAreFetched(env, rows[..n], today);
      var loaded := Loaded(env, rows[..n], today);
      if OldEnough(env, rows[n]["id"], today) {
        NewEventIsFetched(env, loaded, rows[n]);
        AppendFetched(env, loaded, NewEvent(env, loaded, rows[n]));
      }
    }
  }

  /** Appending an event whose details are a fresh build keeps `AllFetched`. */
  lemma AppendFetched(env: Environment, events: seq<VulnerabilityEvent>, e: VulnerabilityEvent)
    requires AllFetched(env, events) && e.details == Fetch(env, e.id)
    ensures AllFetched(env, events + [e])
  {
  }

  /** A new event reuses details equal to a fresh build when all earlier events' details are. */
  lemma NewEventIsFetched(env: Environment, loaded: seq<VulnerabilityEvent>, row: Row)
    requires "id" in row && "data" in row && "outcome" in row
    requires AllFetched(env, loaded)
    ensures NewEvent(env, loaded, row).details == Fetch(env, row["id"])
  {
    var reused := LastDetails(loaded, row["id"]);
    if reused.Some? {
      var k :| 0 <= k < |loaded| && loaded[k].id == row["id"] && loaded[k].details == reused;
    }
  }

  /**
    All events of one vulnerability share one set of details. Like
    `LoadedDetailsAreFetched`, this follows from the lookup being a function
    of the id, not from the reuse scan.
   */
  lemma SharedDetails(env: Environment, rows: seq<Row>, today: int)
    requires Readable(env, rows, today)
    ensures var events := Loaded(env, rows, today);
      forall i, j :: 0 <= i < |events| && 0 <= j < |events| && events[i].id == events[j].id ==>
        events[i].details == events[j].details
  {
    LoadedDetailsAreFetched(env, rows, today);
  }

  /**
    An old enough vulnerability without CVSS v3 data is still loaded, as an
    event without details; `Utils.AllBuilt`, which the schema builder and
    the target function need, then fails for the loaded events.
   */
  lemma LoadedMayLackDetails()
    ensures var env := Environment(
        _ => Record("", None, [], None, None, [], "", ""), _ => 0, _ => 0, _ => true, _ => [], []);
      var rows: seq<Row> := [map["id" := "CVE-0", "data" := "", "outcome" := "1"]];
      && Readable(env, rows, MinAgeDays * SecondsPerDay)
      && Loaded(env, rows, MinAgeDays * SecondsPerDay) == [VulnerabilityEvent("CVE-0", 0, true, None)]
      && !Utils.AllBuilt(Loaded(env, rows, MinAgeDays * SecondsPerDay))
  {
    var env := Environment(
        _ => Record("", None, [], None, None, [], "", ""), _ => 0, _ => 0, _ => true, _ => [], []);
    var rows: seq<Row> := [map["id" := "CVE-0", "data" := "", "outcome" := "1"]];
    var today := MinAgeDays * SecondsPerDay;
    assert OldEnough(env, "CVE-0", today);
    assert rows[..0] == [];
    assert LastDetails([], "CVE-0") == None;
    assert Fetch(env, "CVE-0") == None;
    var events := Loaded(env, rows, today);
    assert events == [VulnerabilityEvent("CVE-0", 0, true, None)];
    assert events[0].details.None?;
  }

  class HistoryParser {
    const dataPath: string
    const env: Environment
    /** The loaded events; `None` until the first `Load`. */
    var data: Option<seq<VulnerabilityEvent>>

    constructor (dataPath: string, env: Environment)
      ensures this.dataPath == dataPath && this.env == env && data.None?
    {
      this.dataPath := dataPath;
      this.env := env;
      data := None;
    }

    /**
      `load`: a second call returns the cached events untouched. The first
      call reads `rows` (the file at `dataPath`), skips the rows of
      vulnerabilities published fewer than 365 days before `today`, reuses
      the details of the last earlier event with the same id, builds them
      otherwise, appends one event per remaining row and returns nothing.
     */
    method Load(rows: seq<Row>, today: int) returns (r: Option<seq<VulnerabilityEvent>>)
      requires data.None? ==> Readable(env, rows, today)
      modifies this
      ensures old(data).Some? ==> r == old(data) && data == old(data)
      ensures old(data).None? ==> r.None? && data == Some(Loaded(env, rows, today))
    {
      if data.Some? {
        return data;
      }
      data := Some([]);
      var keyParser := new KeywordsParser(env.exceptionRows, env.rake);
      for i := 0 to |rows|
        invariant Readable(env, rows[..i], today)
        invariant data == Some(Loaded(env, rows[..i], today))
      {
        var row := rows[i];
        assert rows[..i + 1][..i] == rows[..i];
        assert rows[..i + 1][i] == row;
        var info := env.findCveById(row["id"]);
        var published := env.parseDate(info.publishedDate);
        if Days(today - published) < MinAgeDays {
          continue;
        }
        var vulnDetails: Option<Vulnerability> := None;
        var events := data.value;
        for j := 0 to |events|
          invariant vulnDetails == LastDetails(events[..j], row["id"])
        {
          assert events[..j + 1][..j] == events[..j];
          if events[j].id == row["id"] {
            vulnDetails := events[j].details;
          }
        }
        assert events[..|events|] == events;
        if vulnDetails.None? {
          vulnDetails := Utils.GetVulnerability(row["id"], env.findCveById,
            KeywordParser(keyParser.exceptions, keyParser.rake), env.parseDate, false, false, false, None);
        }
        var vulnEvent := VulnerabilityEvent(row["id"], env.eventDate(row["data"]), env.eventOutcome(row["outcome"]), vulnDetails);
        data := Some(data.value + [vulnEvent]);
      }
      assert rows[..|rows|] == rows;
      r := None;
    }
  }
}
