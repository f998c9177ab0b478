# tess feature and target pipeline, in Dafny

This project models the core of tess, a predictor of how exploitable a
vulnerability (CVE) will become.
It covers the steps that turn a history of vulnerability events into
training data:

- `Utils` (tess/utils.py):
  - builds the feature schema of a dataset;
  - computes one vulnerability's feature vector;
  - computes the smoothed regression target of one event;
  - masks a schema;
  - assembles a `Vulnerability` from a raw CVE record.
- `KeywordsParser` (tess/parser.py): keeps the RAKE phrases scored above
  1.0 and normalises them with the ordered exception table.
- `HistoryParser` (tess/parser.py): loads the outcome history once. It
  skips vulnerabilities published less than 365 days ago and reuses the
  details already built for an id.

The code is imperative, so the model is too. Each loop of the source is a
`method` with a `for`/`while` loop, proved against a specification function:

- `Entries`, `ElementFeature`, `Window`, `CweValues` and `BuildVulnerability`
  specify the `Utils` methods;
- `Transformed` specifies the normaliser;
- `Loaded` specifies the loader.

The properties the source promises are proved as lemmas about those
functions. The two parser classes are Dafny classes. `HistoryParser.data`
is a mutable field, filled once by `Load`.

Files:

- `wrappers.dfy`: `Option`.
- `strings.dfy`: the Python string operations the normaliser uses
  (`lower`, `strip`, `in`, `replace`), and `startswith`, which the
  record builder uses.
- `data.dfy`: the raw record, `Vulnerability`, `VulnerabilityEvent`, and
  whole days.
- `utils.dfy`: tess/utils.py.
- `parser.dfy`: tess/parser.py.

Dates are whole seconds and `timedelta.days` is floor division by 86400.
The collaborators outside the core are parameters:

- the CVE lookup;
- the date parser, one function for both `dateparser.parse` and
  `datetime.strptime`, so the model assumes the two agree on a record's
  publication date;
- the event's date and outcome parsing;
- RAKE;
- the exception table;
- "now".

The loader takes them, except "now", as an `Environment` value. It takes
"now" as `Load`'s `today` and the CSV file as its `rows`.

Behaviour of the code that a reader might not expect, and that the model
keeps:

- The feature vector is written by an if/elif chain, so only one synthetic
  feature (`__days_diff`, else `__ref_number`, else `__cvss_expl`) gets a
  value.
- `load` appends an event even when the record could not be built
  (`details` is `None`). The schema builder and the target function then
  fail on such an event: they read its details (`Parser.LoadedMayLackDetails`
  exhibits a run that loads one).
- `load` reads the event date from the column `data`, not `date`.
- The window of the target function keeps earlier events whose difference
  is 0 to 31 *whole* days. So an event up to 31 days and 86399 seconds
  earlier counts.
- The first call of `load` returns nothing. Only later calls return the
  cached events.
- Normalising is not idempotent: a rewrite can make a rule fire again on a
  second pass (`Parser.RenormalisingRewritesAgain`: under the rule
  ("c", "a", "aa"), "a" becomes "aa" and then "aaaa").
- The order within each group of the schema comes from Python's `set`
  iteration order, so the schema is not reproducible across runs.

## Model

| member | source | states |
|---|---|---|
| Data.Days | tess/utils.py:48 | `.days` of a difference in seconds is the whole number of days, rounded down |
| Utils.BaseEntries | tess/utils.py:17-20 | `addon`: the three synthetic names `__cvss_expl, __ref_number, __days_diff` when forced, none otherwise |
| Utils.CapecIdsOf | tess/utils.py:15 | `[item[0] for item in capec]`: the attack-pattern id of each CAPEC pair, in order |
| Utils.Vocabulary | tess/utils.py:21 | `set(entries)`: the names one group's loop collected, without order or repetition |
| Utils.EntriesMembership | tess/utils.py:13-16 | a name is collected for a group exactly when it is the lowercase form of a name of that group in some event |
| Utils.CollectEntries | tess/utils.py:10-16 | the loop over the events collects each group's lowercase names, event after event |
| Utils.ListOfSet | tess/utils.py:21 | `list(set(xs))` holds every element of `xs` once and nothing else, so its length is the number of distinct elements |
| Utils.GetAvailableFeatureSchema | tess/utils.py:9-21 | the schema is the distinct keywords, then the distinct CAPEC ids, then the distinct CWE ids, each group lowercased and duplicate-free, then exactly `__cvss_expl, __ref_number, __days_diff` when forced and nothing otherwise |
| Utils.LayoutOfParts | tess/utils.py:21 | concatenating listings of the three vocabularies and the synthetic names gives that layout, each group at its offset |
| Utils.Entries | tess/utils.py:13-16 | the list one group's loop builds: that group's names of each event, lowercased, event after event |
| Utils.IndexOf | tess/utils.py:28 | `schema.index(x)` is the first position holding `x`; it fails exactly when `x` is absent |
| Utils.LookedUp | tess/utils.py:26 | the names the vector looks up are the keywords followed by the CAPEC ids |
| Utils.SyntheticWrite | tess/utils.py:32-37 | the if/elif chain writes nothing exactly when none of the three synthetic names is in the schema; otherwise it writes at the first index of `__days_diff` if present, else of `__ref_number` if present, else of `__cvss_expl`, the whole-day age, the reference count or the exploitability score respectively |
| Utils.ElementFeature | tess/utils.py:25-38 | one slot per schema entry: the synthetic value at the synthetic slot, else 1 at the first index of a looked-up name, else 0 |
| Utils.GetElementFeature | tess/utils.py:24-38 | the vector has one slot per schema entry; each slot holds the one synthetic value written, or 1 at the first index of a looked-up name, or 0 |
| Utils.PresenceSlot | tess/utils.py:26-31 | a keyword or CAPEC id whose lowercase form is in the schema sets the slot at its first index to 1, unless the synthetic write overwrites that slot |
| Utils.UnwrittenSlotIsZero | tess/utils.py:25-38 | a slot that no lookup finds and that is not the synthetic slot stays 0 |
| Utils.AbsentNameChangesNothing | tess/utils.py:26-31 | adding a keyword whose lowercase form is not in the schema leaves the vector unchanged |
| Utils.CweNotLookedUp | tess/utils.py:26 | the CWE ids never influence the vector |
| Utils.OnlyDaysDiffWritten | tess/utils.py:32-37 | with `__days_diff` present, its slot holds the whole-day age and the `__ref_number` and `__cvss_expl` slots stay 0 unless a looked-up name marks them |
| Utils.OnlyRefNumberWritten | tess/utils.py:34-35 | with `__ref_number` present and `__days_diff` absent, its slot holds the reference count and the `__cvss_expl` slot stays 0 unless a looked-up name marks it |
| Utils.OnlyCvssExplWritten | tess/utils.py:36-37 | with only `__cvss_expl` of the three present, its slot holds the exploitability score |
| Utils.NothingSyntheticWritten | tess/utils.py:25-37 | with none of the three synthetic names present, every slot is 1 at the first index of a looked-up name and 0 elsewhere |
| Utils.InWindow | tess/utils.py:46-49 | an event counts for the window when it has the same id, is 0 to 31 whole days earlier and is not the event itself |
| Utils.Window | tess/utils.py:45-50 | the window holds only events of the data that are in the window, and no more of them than the data has |
| Utils.WindowAppend | tess/utils.py:45-50 | the window of a concatenation is the window of the first part followed by that of the second, so the window keeps every in-window event in data order with its multiplicity |
| Utils.WindowSingle | tess/utils.py:46-50 | a single event contributes itself exactly when it is in the window, and nothing otherwise |
| Utils.WindowMembership | tess/utils.py:45-50 | an event is in the window exactly when it is in the data, has the same id, is 0 to 31 whole days earlier and is not the event itself |
| Utils.Positives | tess/utils.py:51 | the positive outcomes are at most as many as the events |
| Utils.GetTargetFunctionValue | tess/utils.py:41-54 | returns the override when set; otherwise returns the score when the window is empty, or the score times the rate of positive outcomes in the window; without an override and with a non-negative score, the result lies between 0 and the score |
| Utils.ScaledScoreBounds | tess/utils.py:54 | a non-negative score scaled by `pos / n` with `pos <= n` stays between 0 and the score |
| Utils.GetFilteredSchema | tess/utils.py:57-62 | keeps exactly the entries whose mask bit is set, in order: each kept entry lands after the entries kept before it, there are no others, and the result is no longer than the schema |
| Utils.CapecPairs | tess/utils.py:74-77 | when the list is present and every item has an id and a name, the result pairs each item's id and name, in order; a missing list or a missing key in any item gives the empty list |
| Utils.CweIn | tess/utils.py:85-87 | the values kept from one problem type all start with "CWE" and are no more than its values |
| Utils.CweValues | tess/utils.py:82-87 | the "CWE" values of all problem types, problem type after problem type |
| Utils.CweInAppend | tess/utils.py:85-87 | filtering one problem type keeps the values' order: it distributes over concatenation |
| Utils.CweValuesAppend | tess/utils.py:82-87 | the CWE values of two lists of problem types are those of the first followed by those of the second |
| Utils.CweInMembership | tess/utils.py:85-87 | the values kept from one problem type are exactly its values starting with "CWE" |
| Utils.CweValuesMembership | tess/utils.py:82-87 | a value is collected exactly when some problem type holds it and it starts with "CWE" |
| Utils.CollectCwe | tess/utils.py:81-87 | the nested loop collects the "CWE" values of all problem types, in order |
| Utils.BuildVulnerability | tess/utils.py:65-96 | the vulnerability `get_vulnerability` assembles from a record, or `None` when a CVSS v3 field is missing |
| Utils.GetVulnerability | tess/utils.py:65-96 | the method with its nested CWE loop builds exactly what `BuildVulnerability` specifies for the looked-up record, whose fields `BuildVulnerabilityFields` states |
| Utils.BuildVulnerabilityFields | tess/utils.py:65-96 | the result is `None` exactly when the CVSS v3 score or vector is missing; otherwise it carries the record's score and reference count and the override; its CWE list is the "CWE" values in order, or empty when skipped, and a value is in it exactly when some problem type holds it and it starts with "CWE"; CAPEC is the record's pairs, or empty when skipped or absent; keywords are the parser's output for the description, or empty when skipped |
| Strings.LowerAll | tess/utils.py:14-16 | `[x.lower() for x in xs]`: one lowercased string per input string, position by position |
| Strings.Lower | tess/parser.py:63 | lowercasing keeps the length, maps each upper-case letter to the same letter in lower case and changes no other character |
| Strings.IsSpace | tess/parser.py:83 | the characters `str.isspace` accepts, which `strip()` removes |
| Strings.StripLeft | tess/parser.py:83 | the leading half of `strip()`: drops an all-whitespace prefix and leaves no whitespace in front |
| Strings.StripRight | tess/parser.py:83 | the trailing half of `strip()`: drops an all-whitespace suffix and leaves no whitespace at the end |
| Strings.Strip | tess/parser.py:83 | `strip()` removes only leading and trailing whitespace and leaves neither end whitespace |
| Strings.StartsWith | tess/utils.py:86 | `s.startswith(p)`: `p` is a prefix of `s` |
| Strings.Contains | tess/parser.py:74 | `p in s`: `p` occurs in `s` at some position, the empty string everywhere |
| Strings.ReplaceAll | tess/parser.py:78 | `s.replace(pat, rep)`: each occurrence of `pat`, scanned from the left without overlaps, becomes `rep`; an empty `pat` inserts `rep` before every character and at the end |
| Strings.ReplaceAbsent | tess/parser.py:78 | replacing a match string that does not occur leaves the keyword unchanged |
| Strings.ReplaceShrinks | tess/parser.py:85 | replacing a pattern by a shorter string never lengthens the text, and shortens it when the pattern occurs, so the collapse loop ends |
| Strings.Squeeze | tess/parser.py:84-85 | the reference definition of collapsing: every maximal run of spaces becomes exactly one space |
| Strings.HalveKeepsSqueeze | tess/parser.py:85 | one pass of `replace('  ', ' ')` does not change the squeezed form |
| Strings.CollapseSpaces | tess/parser.py:84-85 | repeating `replace('  ', ' ')` until no double space is left squeezes every run of spaces to one space; the result has no two consecutive spaces and the same non-space characters |
| Strings.Tidy | tess/parser.py:83-85 | a rewrite is the stripped text with every run of spaces squeezed to one space; it is stripped, has no two consecutive spaces and keeps every non-space character of the stripped text |
| Parser.RuleOf | tess/parser.py:52-53 | a table row becomes a rule with every cell lowercased; a two-cell row has no replacement |
| Parser.RulesOf | tess/parser.py:49-53 | the table holds one rule per row, in row order |
| Parser.Matches | tess/parser.py:69-74 | an "m" rule fires when the keyword equals its match string, a "c" rule when its match string occurs in the keyword |
| Parser.Rewrite | tess/parser.py:70-78 | a two-column rule drops the keyword; an "m" rule gives its replacement, a "c" rule the keyword with every occurrence replaced, either tidied |
| Parser.Decide | tess/parser.py:66-89 | the rules are tried in table order; the first that fires decides, and with none firing the lowercased keyword is kept |
| Parser.TransformOne | tess/parser.py:63-89 | one keyword's pass: it is lowercased, then the rules are tried in table order and the first that fires drops or rewrites it |
| Parser.Transformed | tess/parser.py:60-90 | normalisation yields at most one output per keyword, so the output is no longer than the input |
| Parser.FirstMatchDecides | tess/parser.py:66-87 | the first rule that fires decides the output; later rules are not consulted |
| Parser.NoMatchKeeps | tess/parser.py:88-89 | a keyword that no rule fires on comes out lowercased and otherwise unchanged |
| Parser.OutputShape | tess/parser.py:69-87 | each output is the lowercased keyword or a stripped rewrite without double spaces; a keyword is dropped only when a two-column rule fires on it |
| Parser.TransformedAppend | tess/parser.py:61-62 | each keyword is normalised on its own and outputs keep input order: normalisation distributes over concatenation |
| Parser.RenormalisingRewritesAgain | tess/parser.py:74-86 | normalising twice differs from normalising once: under ("c", "a", "aa"), "a" gives "aa" and normalising that gives "aaaa" |
| Parser.Phrases | tess/parser.py:57 | the phrases passed on are exactly those scored strictly above 1.0 |
| Parser.KeywordParser | tess/parser.py:55-58 | `parse` of a table and a scorer: the phrases scored above 1.0, normalised, as the function the record builder is given |
| Parser.KeywordsParser.constructor | tess/parser.py:46-53 | the table holds one rule per row, every cell lowercased, and the parser keeps the given scorer |
| Parser.KeywordsParser.Parse | tess/parser.py:55-58 | `parse` normalises the phrases scored above 1.0 and returns no more keywords than RAKE found |
| Parser.KeywordsParser.TransformKeywords | tess/parser.py:60-90 | the nested loops with the `ignore` and `to_append` flags compute the normalisation of the keywords |
| Parser.LastDetails | tess/parser.py:35-38 | reused details come from an earlier event with the same id |
| Parser.LastDetailsIsLast | tess/parser.py:36-38 | the scan ends with the details of the last earlier event with that id |
| Parser.LastDetailsAbsent | tess/parser.py:35-38 | with no earlier event of that id nothing is reused |
| Parser.OldEnough | tess/parser.py:30-32 | a row is kept when its vulnerability was published at least 365 whole days before today |
| Parser.Fetch | tess/parser.py:40 | the details `load` builds for an id: `get_vulnerability` with nothing skipped and no target override |
| Parser.NewEvent | tess/parser.py:35-41 | the event for a kept row: its id, date and outcome cells, and the details of the last earlier event with that id, or a fresh build when those are `None` |
| Parser.Loaded | tess/parser.py:29-42 | the events `load` collects, one per kept row, in row order |
| Parser.Accepted | tess/parser.py:29-34 | every row `load` keeps is of a vulnerability published at least 365 whole days before today |
| Parser.AcceptedMembership | tess/parser.py:29-34 | a row is kept exactly when it is a row of the file whose vulnerability is at least 365 whole days old |
| Parser.LoadedFollowsRows | tess/parser.py:29-42 | there is one event per kept row, in row order, with that row's id, date (column `data`) and outcome, whether or not its details could be built |
| Parser.NewEventIsFetched | tess/parser.py:35-41 | a new event's details equal a fresh build for its id when the earlier events' details all do |
| Parser.LoadedDetailsAreFetched | tess/parser.py:35-40 | reuse is invisible: every loaded event carries exactly the details a fresh `get_vulnerability` for its id builds |
| Parser.SharedDetails | tess/parser.py:35-40 | all events of one vulnerability carry the same details |
| Parser.LoadedMayLackDetails | tess/parser.py:39-42 | a vulnerability without CVSS v3 data is still loaded, as an event without details, so the loaded events do not all carry details |
| Parser.HistoryParser.constructor | tess/parser.py:14-17 | a new loader keeps its path and has loaded nothing |
| Parser.HistoryParser.Load | tess/parser.py:19-42 | once data is loaded, `load` returns it unchanged; the first call returns nothing and fills `data` with the loaded events of the rows |

## Left out

- Reading the files: the CSV history, the stopword list and the exception table. The loader is given the history's rows, and the keywords parser is given the table's rows.
- RAKE scoring is a foreign library. The parser is given a function from a text to scored phrases.
- The CVE data source (CVESearch) is a network service. It is a pure function from an id to a record, so a lookup cannot fail or change between calls.
- `dateparser.parse` and `datetime.strptime` become the one parameter `parseDate`, and `datetime.now` the parameter `today`, all in whole seconds; the model thus assumes the two parsers agree. A date string that fails to parse and timezone handling (`replace(tzinfo=None)`) are not modelled.
- The parsing of a history row's date and outcome cells happens in `VulnerabilityEvent`. tess/data/vulnerability.py is not part of this model, so these are parameters.
- Events and vulnerabilities compare by value. The `!=` in the target function uses the equality of tess/data/vulnerability.py, which is not part of this model.
- The diagnostic `print` for a skipped row is output only.
- Strings.Lower: lowercases the ASCII letters only, not the full Unicode case mapping of `str.lower`.
- Utils.ListOfSet: Python's set iteration order is unspecified, so the schema's order within a group is not reproducible across runs. The method keeps first occurrences, and its contract, like the schema's, promises only a duplicate-free listing of the set.
- Utils.GetElementFeature: the vector is `seq<real>`. Presence slots and the day count are Python ints and the score is a float, all modelled as reals.
- Utils.GetTargetFunctionValue: `e_score * (pos / n)` uses exact real arithmetic, not floating point. An event without details (which Python would reject with an `AttributeError`) is excluded by its precondition.
- Utils.GetAvailableFeatureSchema: requires every event to carry details. Python fails on an event whose details are `None`.
- Utils.GetFilteredSchema: requires a mask at least as long as the schema. Python raises `IndexError` otherwise.
- Parser.KeywordsParser.constructor: exception rows with fewer than two cells, on which Python raises `IndexError` when they are reached, are excluded by the `ExceptionRow` type.
- Data.Record: the record always holds the keys the source reads without catching `KeyError`: `cve.description.description_data` (tess/utils.py:70), `cve.problemtype.problemtype_data`, each problem type's `description` and each entry's `value` (tess/utils.py:82-86), `cve.references.reference_data` and `publishedDate` (tess/utils.py:94-95), `history` (tess/utils.py:95), and the `publishedDate` that `load` parses (tess/parser.py:31). A record missing one of them makes `get_vulnerability`, and with it `load`, raise `KeyError`; the model has no such failure.
- Parser.HistoryParser.Load: requires every row to have an `id` and every kept row to have `data` and `outcome` cells. Python raises `KeyError` otherwise. A record without a description (an `IndexError` in Python) cannot occur in the `Record` type.
- The unused `exceptions` field of `HistoryParser` is not modelled.
- tess.py (the command line) and tess/model (the regressors and their persistence) are outside the modelled core.
