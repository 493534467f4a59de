# A verified model of the MIMIC comma-separated-file graph loader

`SimpleGraph.run_import` reads a comma-separated file of hospital visits into
a Neo4j property graph via the neomodel object mapper. Line 1 is a header.
From column 7 on, every header column names an ICD-9 diagnosis code:

- The header phase builds the hierarchy of each code's category prefixes,
  linked by `parent_dx`.
- Each later line is one visit: its id, sex, care site, race and age, two
  unused columns, then one flag per diagnosis column.
- The row phase upserts the visit and its attributes and links them. It adds
  a `dx` edge to every diagnosis flagged `"1"`.
- A single `try` wraps the whole run, so the first exception ends the import.

The model treats the graph database as a key-addressed store. A node is a
(label, key) pair and an edge is a (node, relation, node) triple. Upserting
a node or connecting an edge adds it to a set, so repeating it changes
nothing, and the store has at most one node per (label, key).

Modules:

- `Text` — the line tokeniser `line.strip().replace('"', "").split(",")`,
  with `lower()` on fields. These are functions, and lemmas state what they
  compute: split and join are inverse, no field holds a comma or a quote, and
  the field count is one more than the number of commas.
- `PropertyGraph` — the `Graph` value, and the class `Store`, whose node and
  edge sets the upsert methods `GetOrCreate` and `Connect` update in place.
- `Hierarchy` — what the header phase adds, as functions (`Chain`,
  `HeaderEffect`), with lemmas on its nodes and edges. It also proves that
  the `parent_dx` edges always point to an immediate prefix. So a diagnosis
  has at most one parent and the relation has no cycle.
- `Rows` — what one data row adds (`RowEffect`) and whether it raises an
  index error (`RowCompletes`).
- `Ingest` — the whole run as a function (`Import`) of the fields of each
  line (`Entries`, the tokenised lines). Lemmas cover:
  - the outcome (completed, or stopped at the first failing line);
  - that later lines are ignored after a stop;
  - that the import only adds;
  - that it is idempotent;
  - that only the header creates `parent_dx` edges.
- `SimpleLoad` — the importer's loops as methods on a `Store`:
  - the line loop with its counter `i` and stored `header`;
  - the header's column loop;
  - the prefix loop carrying `last`;
  - the attribute upserts;
  - the diagnosis loop.

  Each method's postcondition says the store ends as the matching function
  of `Hierarchy`, `Rows` or `Ingest` says. So the lemmas about those
  functions hold of the store `RunImport` leaves.
- `Scenarios` — worked instances on concrete codes and rows.

Three behaviours of the code shape the model:

- **The header prefix loop stops before the whole code.** It runs over
  `range(base_length, len(icd9))`.
  - `"2501"` yields only `"250"`, with no edge.
  - `"V10"` yields nothing.
  - A code's own chain never contains the whole code
    (`Hierarchy.ChainNodes`). The whole code becomes a node only through a
    flagged row, or through the chain of another, longer diagnosis column
    that extends it.
  - `Scenarios.SampleImport` shows this on a header column `"250.1"` and a
    row flagging it: the import has no edge from `"2501"` to `"250"`.
- **The first index error ends the import.** A single `try` wraps the whole
  run, so everything written before the failing field stays and no later line
  is read.
- **Every upsert goes straight to the store.** Nothing is cached between
  calls.

Inputs taken as parameters: the file is a sequence of lines, and the store is
the `Store` object passed in.

## Model

| member | source | states |
|---|---|---|
| Text.LeadingSpacesSpec | src/neograph/simple_load.py:28 | the leading run removed by `strip()` is all whitespace and stops at the first non-whitespace character |
| Text.TrimRightSpec | src/neograph/simple_load.py:28 | trimming on the right keeps a prefix, removes only whitespace, and leaves no whitespace at the end |
| Text.StripSpec | src/neograph/simple_load.py:28 | `strip()` keeps a contiguous middle of the line, drops only whitespace on both sides, and the result neither starts nor ends with whitespace |
| Text.WithoutSpec | src/neograph/simple_load.py:28 | `replace(c, "")` leaves no `c`, removes exactly the occurrences of `c`, and is the identity when `c` does not occur |
| Text.WithoutKeepsOthers | src/neograph/simple_load.py:28 | every character other than `c` keeps its number of occurrences |
| Text.WithoutConcat | src/neograph/simple_load.py:28 | deleting a character works piece by piece, so the other characters keep their order |
| Text.SplitSpec | src/neograph/simple_load.py:28 | `split(sep)` gives one piece more than there are separators, no piece contains the separator, and every piece is made of characters of the input |
| Text.JoinSplit | src/neograph/simple_load.py:28 | joining the pieces of a split with the separator gives the input back |
| Text.SplitJoin | src/neograph/simple_load.py:28 | splitting a join of separator-free pieces gives the pieces back |
| Text.TokeniseSpec | src/neograph/simple_load.py:28 | the fields of a line contain no `,` and no `"`, number one more than the commas of the stripped, quote-free line, and join back to that line |
| Text.LowerSpec | src/neograph/simple_load.py:68-88 | lower-casing keeps the length, maps each capital letter to its small letter, keeps every other character and leaves no capital |
| Text.LowerEqualIff | src/neograph/simple_load.py:66-90 | two values give the same key exactly when they have the same length and at each position the characters are equal or one is a capital letter and the other its small letter |
| Text.LowerIdempotent | src/neograph/simple_load.py:66-90 | a lower-cased key lower-cases to itself |
| PropertyGraph.UnionIdempotent | src/neograph/simple_load.py:48-54 | adding the same nodes and edges again changes nothing, and both the old graph and the effect are kept |
| PropertyGraph.Store.GetOrCreate | src/neograph/simple_load.py:48-52 | returns the node with this label and key and adds exactly that node to the store's node set, so a node already there is not duplicated |
| PropertyGraph.Store.Connect | src/neograph/simple_load.py:54 | given two nodes the store holds, adds exactly the edge between them to the store's edge set, so an edge already there is not duplicated |
| Hierarchy.ChainMembers | src/neograph/simple_load.py:46-55 | after the rounds before `hi`, the nodes are exactly the prefixes of length `b <= j < hi` and the edges exactly the links of the prefixes of length `b < j < hi` to the prefix one shorter |
| Hierarchy.ChainShape | src/neograph/simple_load.py:45-55 | the prefix loop adds only Diagnosis nodes and `parent_dx` edges between nodes it adds, each from a key to its immediate prefix |
| Hierarchy.ChainNodes | src/neograph/simple_load.py:36-52 | the header adds for a code exactly the prefixes of length `b <= j < len(code)` (b is 4 for a code starting with `E`, else 3); nothing when the code is no longer than `b`; never the whole code |
| Hierarchy.ChainEdges | src/neograph/simple_load.py:45-55 | every prefix longer than the base is linked to the prefix one character shorter, and these are the only edges of the chain |
| Hierarchy.BaseHasNoParent | src/neograph/simple_load.py:45-55 | the base-length prefix gets no `parent_dx` edge |
| Hierarchy.HeaderNodes | src/neograph/simple_load.py:36-37 | a node comes from the header exactly when it belongs to the chain of some column at index 7 or more |
| Hierarchy.HeaderEdges | src/neograph/simple_load.py:36-37 | an edge comes from the header exactly when it belongs to the chain of some column at index 7 or more |
| Hierarchy.HeaderShape | src/neograph/simple_load.py:36-55 | the header adds only Diagnosis nodes and `parent_dx` edges between nodes it adds, each from a key to the key one character shorter that it starts with |
| Hierarchy.AtMostOneParent | src/neograph/simple_load.py:53-55 | when every `parent_dx` edge points to an immediate prefix, a diagnosis has at most one parent |
| Hierarchy.ParentPathShortens | src/neograph/simple_load.py:53-55 | following `k` `parent_dx` edges shortens the key by exactly `k` |
| Hierarchy.NoParentCycle | src/neograph/simple_load.py:53-55 | a path of one or more `parent_dx` edges never returns to its start |
| Rows.DxMembers | src/neograph/simple_load.py:99-107 | the diagnosis loop adds a node and a `dx` edge exactly for the columns from index 7 whose field is `"1"` |
| Rows.RowAttributes | src/neograph/simple_load.py:60-96 | the visit is keyed by lower-cased field 0, and linked by `sex`, `care_site`, `race` and `age` to nodes keyed by lower-cased fields 1 to 4; these are all the row's non-diagnosis nodes and non-`dx` edges |
| Rows.RowDiagnoses | src/neograph/simple_load.py:99-107 | a row adds a Diagnosis node keyed by the dot-stripped header code, and a `dx` edge from its visit, exactly for the columns from index 7 it reaches whose field is `"1"`; a row that completes reaches every column of the header |
| Rows.RowIgnoresReservedColumns | src/neograph/simple_load.py:60-107 | fields 5 and 6 are never read: rows that differ only there have the same effect and the same fate |
| Rows.RowShape | src/neograph/simple_load.py:60-107 | a row adds no `parent_dx` edge, and every edge it adds joins nodes it adds |
| Ingest.ImportAdds | src/neograph/simple_load.py:24-107 | what the import adds, and how it ends, do not depend on what the store held |
| Ingest.ImportOnlyAdds | src/neograph/simple_load.py:48-107 | everything the store held before the import is still there after it |
| Ingest.ImportIdempotent | src/neograph/simple_load.py:48-107 | importing the same file twice gives the same graph and outcome as importing it once |
| Ingest.DataRowsOutcome | src/neograph/simple_load.py:13-110 | the data rows complete exactly when each of them does, and otherwise stop at the first that fails |
| Ingest.ImportOutcome | src/neograph/simple_load.py:24-33 | line 1 is only the header; the import completes exactly when every later line completes against it, and a stop at line `k` (2 to the number of lines) means line `k` is the first that fails |
| Ingest.ImportIgnoresLinesAfterStop | src/neograph/simple_load.py:109-110 | once the import stops, lines after the failing one make no difference to the store or the outcome |
| Ingest.ImportAppend | src/neograph/simple_load.py:57-60 | after a file that completed, one more line is read as a data row against the stored header and adds exactly that row's effect |
| Ingest.DataRowsShape | src/neograph/simple_load.py:60-107 | data rows add no `parent_dx` edge and keep every edge between existing nodes |
| Ingest.ImportKeepsHierarchy | src/neograph/simple_load.py:32-57 | every `parent_dx` edge after the import was there before or comes from the header; the immediate-prefix property and the property that edges join existing nodes are preserved |
| SimpleLoad.BuildHierarchy | src/neograph/simple_load.py:39-55 | the prefix loop, carrying `last`, leaves the store holding what it held plus the chain of the code |
| SimpleLoad.ProcessHeader | src/neograph/simple_load.py:36-37 | the column loop over the columns from index 7 leaves the store holding what it held plus the chains of all those columns (the header's effect) |
| SimpleLoad.AddAttributes | src/neograph/simple_load.py:60-96 | upserts the visit and its four attribute nodes, keyed by the lower-cased fields 0 to 4, links the visit to the four others, and returns the visit |
| SimpleLoad.AddDiagnoses | src/neograph/simple_load.py:99-107 | the diagnosis loop adds the diagnoses of the columns it reaches, and fails exactly when the header has a diagnosis column the row lacks |
| SimpleLoad.ProcessRow | src/neograph/simple_load.py:60-107 | a data row succeeds exactly when the row completes, and leaves the store holding what it held plus the row's effect, also when it fails |
| SimpleLoad.RunImport | src/neograph/simple_load.py:12-110 | the line loop leaves the store, and reports the outcome, exactly as `Import` of the tokenised lines says, so every `Ingest` lemma holds of the store it leaves |
| Scenarios.CodeDeletesDots | src/neograph/simple_load.py:37 | the column `"250.01"` names the code `"25001"` |
| Scenarios.ChainOfFiveCharacterCode | src/neograph/simple_load.py:46-55 | `"25001"` gets `"250"` and `"2500"`, linked from the longer to the shorter |
| Scenarios.ChainOfFourCharacterCode | src/neograph/simple_load.py:46-55 | `"2501"` gets only `"250"`, with no edge |
| Scenarios.ChainOfShortCode | src/neograph/simple_load.py:46 | `"V10"` gets nothing |
| Scenarios.ChainOfExternalCauseCode | src/neograph/simple_load.py:39-46 | `"E8497"` has a base of four and gets only `"E849"` |
| Scenarios.TokeniseLine | src/neograph/simple_load.py:28 | the line ` "v1",,x` followed by a newline gives the fields `v1`, an empty field and `x`: surrounding whitespace and quotes go, empty fields stay |
| Scenarios.AttributesIgnoreCase | src/neograph/simple_load.py:66-70 | `"Male"` and `"MALE"` give the same Sex key `"male"` |
| Scenarios.TokenisePlainLine | src/neograph/simple_load.py:28 | a line with no surrounding whitespace and no quote is split into exactly the comma-free fields it joins |
| Scenarios.SampleHeaderEffect | src/neograph/simple_load.py:36-55 | a header whose one code column is `"250.1"` adds only `"250"` |
| Scenarios.SampleRowEffect | src/neograph/simple_load.py:60-107 | a flagged row against that header adds its visit, lower-cased attributes, their four edges, and `dx` to `"2501"` |
| Scenarios.SampleImport | src/neograph/simple_load.py:24-107 | the import of that header and row completes with `"2501"` a diagnosis of the visit but without a `parent_dx` edge to `"250"` |
| Scenarios.ShortRowStops | src/neograph/simple_load.py:99-110 | a row of six fields against that header keeps its attributes, fails, and the next row is never read |

## Left out

- Opening the file and counting its lines (lines 15–18) is I/O that only
  sizes the progress bar. The model takes the file as a sequence of lines.
  How a file is cut into lines, with Python's universal newlines, is not
  modelled; each line may keep its line terminator, which `strip()` removes.
- The `tqdm` progress display (line 25) and `print(ex)` (line 110) are
  interface and logging. Only the outcome is modelled: completed, or stopped
  at line `k`.
- The neomodel and Neo4j internals and the node classes of
  `models.simple_graph` (line 7) are a foreign library; `models.simple_graph`
  is not part of this model. A store of node and edge sets replaces them.
  - The distinct property names (`label`, `site_id`, `visit_id`, `icd`) are
    folded into the node's label and key.
  - `create_or_update` on Visit is the same upsert as `get_or_create`, since
    it sets no other property.
  - The `[0]` of the returned tuple is the node handle itself.
- Exceptions from the store, such as connection loss or constraint
  violations, are not modelled. The only failures modelled are the index
  errors of lines 60–64 and 100, which are the ones the code's own data can
  cause.
- The numeric test `entry[z] == 1` (line 100) is dead, because fields are
  always strings. Only `entry[z] == "1"` is modelled.
- Text.LowerSpec: states `str.lower()` for ASCII letters only; other
  characters are kept. Full Unicode case mapping is a table of the Python
  runtime.
- Whitespace for `strip()` is a fixed list of the code points for which
  Python's `str.isspace()` holds (`Text.IsSpace`).
- The order in which nodes and edges are created within a row is not
  recorded, because the store is a pair of sets.
