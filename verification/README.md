# data-archive-ml-synthesizer, modelled in Dafny

This project models the core of *data-archive-ml-synthesizer*. The pipeline
loads three flat tables describing an archival package: `dmdSec`
(descriptive metadata), `file` (files) and `structMap` (the logical
structure, a self-referencing `parent_id` tree). It checks their shape and
describes them to a relational generator as a metadata graph. It trains the
generator and samples synthetic tables from it. It then reassembles the
synthetic tables into one hierarchical METS document (Library of Congress
METS schema, with Dublin Core records) and validates the document against
XSD schemas.

The modules, one per file:

- `wrappers.dfy`: `Option` and `Result`.
- `tables.dfy`: tables and rows. A row maps a column to a value that may be
  null, and a column missing from the map is *absent*. The source treats
  these two cases differently.
- `document.dfy`: the XML document as a tree of elements. Each element has a
  namespace-qualified name, an attribute map, optional text and ordered
  children.
- `file_ids.dfy`: the file-id mapping consulted by structure divisions,
  including the `sdv-id-` to `FILE1`..`FILE99` guessing heuristic.
- `struct_map.dfy`: the two passes that turn `structMap` rows into a division
  forest. Elements created in the first pass are handles (row indices) into
  an arena. The second pass appends handles. The finished tree is the arena
  unfolded from the top-level handles.
- `reassembler.dfy`: `reassemble`, section by section. Errors appear in the
  source's evaluation order.
- `metadata.dfy`: `build_metadata`, from column lists to a graph of tables,
  keys and relationships.
- `loader.dfy`: the structural validation of loaded tables and the loading
  order.
- `generative_model.dfy`: `GenerativeModel` as a class with the fields
  `model` and `metadata`. It covers the train-before-sample check, the
  choice of row counts, and `head` truncation.
- `validator.dfy`: `XMLValidator` as a class with a lazily filled schema
  cache, and the loop that collects one message per failing schema.

Foreign calls are parameters: the generator's output, schema compilation,
document parsing and schema validation. The model relates the result to
these parameters and does not interpret them.

`drop_unknown_references` comes from the synthesizer library, whose code is
not part of this model. `Sampling.DropUnknownReferences` gives it a stand-in
body, and only its contract is claimed for the library function.

A division whose non-empty `parent_id` names no `struct_id` is attached
nowhere (`reassembler.py:301-304`). It is lost together with everything
below it; it is not promoted to the top level. `StructMap.Appears` proves
exactly which divisions survive.

## Model

| member | source | states |
|---|---|---|
| FileIds.BuildFileIdMapping | src/data_archive_ml_synthesizer/reassembler.py:223-243 | The dictionary filled row by row, including the inner loop over FILE1..FILE99, ends equal to the mapping `Mapping` of the file ids. |
| FileIds.MappingAt | src/data_archive_ml_synthesizer/reassembler.py:223-243 | The keys are exactly the file ids, plus all of FILE1..FILE99 once any id starts with `sdv-id-`. A key maps to the last `sdv-id-` id when it is a guessed name that no row after that id names again. Otherwise it maps to itself. |
| FileIds.GuessFull | src/data_archive_ml_synthesizer/reassembler.py:239-241 | The guessing loop adds exactly the 99 names FILE1..FILE99 and points all of them at the current id. Every other key is unchanged. |
| FileIds.EveryIdMapped | src/data_archive_ml_synthesizer/reassembler.py:226-232 | Every `file_id` of the table is a key of the mapping. |
| FileIds.GuessesCollapse | src/data_archive_ml_synthesizer/reassembler.py:234-241 | Once any id is generated-looking, any two guessed names that no row uses map to the same value: the last generated-looking id. |
| StructMap.IdIndexSpec | src/data_archive_ml_synthesizer/reassembler.py:260-282 | After the first pass has seen n rows, each of them has a `divisions` entry under its `struct_id`. Each entry is a handle of an earlier row carrying that id. |
| StructMap.IdIndexUnique | src/data_archive_ml_synthesizer/reassembler.py:282 | With unique `struct_id`s, each row's entry is its own division. |
| StructMap.ParentOf | src/data_archive_ml_synthesizer/reassembler.py:298-304 | A row has a parent handle only when its `parent_id` is neither null nor empty. That handle is a row whose `struct_id` equals the `parent_id`. There is no handle only when the row is top-level or no row's `struct_id` equals its `parent_id`. |
| StructMap.ChildrenBeforeSpec | src/data_archive_ml_synthesizer/reassembler.py:301-304 | The handles appended under p are exactly the rows whose parent is p. Each appears once, in increasing row order. |
| StructMap.TopLevelBeforeSpec | src/data_archive_ml_synthesizer/reassembler.py:293-300 | `root_divs` holds exactly the rows with a null or empty `parent_id`, each once, in row order. |
| StructMap.CreateDivisions | src/data_archive_ml_synthesizer/reassembler.py:262-290 | The first pass gives every row a division with its attributes and optional `fptr`, and no children yet. `divisions` ends as the id index. |
| StructMap.NodeAfterStep | src/data_archive_ml_synthesizer/reassembler.py:303-304 | Handling one row of the second pass appends its handle after the existing children of its parent's division. No other division changes. |
| StructMap.LinkRow | src/data_archive_ml_synthesizer/reassembler.py:294-304 | One row of the second pass has one of three effects: it extends the top-level list, it appends the row under its parent, or it does nothing. The arena and the list remain what the first i+1 rows produce. |
| StructMap.LinkDivisions | src/data_archive_ml_synthesizer/reassembler.py:292-304 | After the second pass the arena is `Arena` and `root_divs` is the list of top-level rows. |
| StructMap.CreateStructMap | src/data_archive_ml_synthesizer/reassembler.py:256-308 | With unique ids and no cycles, the built `structMap TYPE="LOGICAL"` element is `StructMapElement`: the top-level divisions, each unfolded. |
| StructMap.ArenaShaped | src/data_archive_ml_synthesizer/reassembler.py:281-304 | Every handle under a division is a row whose parent is that division. An `fptr` child holds no division. |
| StructMap.DivisionShape | src/data_archive_ml_synthesizer/reassembler.py:268-304 | A finished `div` has ID, DMDID and the LABEL, ORDER and TYPE that are not null. It holds its `fptr` first, with FILEID resolved through the mapping or left as is. After it come the divisions of its child rows, in row order. |
| StructMap.DivAttrsId | src/data_archive_ml_synthesizer/reassembler.py:268-271 | The ID attribute of a division is its row's `struct_id`. |
| StructMap.LevelStep | src/data_archive_ml_synthesizer/reassembler.py:303-304 | A child lies one level below its parent, and the two share the row where their parent chains stop. |
| StructMap.SubtreeSound | src/data_archive_ml_synthesizer/reassembler.py:303-304 | A division contains only IDs of rows in its own subtree. |
| StructMap.SubtreeComplete | src/data_archive_ml_synthesizer/reassembler.py:303-304 | A division contains the ID of every row in its subtree. |
| StructMap.Appears | src/data_archive_ml_synthesizer/reassembler.py:293-308 | A row's division is in the `structMap` exactly when its parent chain ends at a row with a null or empty `parent_id`. A chain that ends at a dangling `parent_id` loses the whole branch. |
| Reassembler.Field | src/data_archive_ml_synthesizer/reassembler.py:187-188 | `row['col']` fails exactly when the column is absent. Otherwise it yields the possibly null value. |
| Reassembler.NotNull | src/data_archive_ml_synthesizer/reassembler.py:128 | An attribute value read with `row['col']` is refused exactly when it is null. |
| Reassembler.Defaulted | src/data_archive_ml_synthesizer/reassembler.py:193 | `row.get(col, default)` as an attribute yields the default only when the column is absent. A present null is refused. |
| Reassembler.EachRowOk | src/data_archive_ml_synthesizer/reassembler.py:124-146 | A section succeeds exactly when every row does. Its elements are then the rows' elements, one per row, in row order. |
| Reassembler.EachRowFirstError | src/data_archive_ml_synthesizer/reassembler.py:186-211 | A failing section reports the error of the first row that fails. |
| Reassembler.Header | src/data_archive_ml_synthesizer/reassembler.py:106-110 | `metsHdr` holds one `agent` with ROLE CREATOR and TYPE OTHER. Its one `name` child has the text "SDV Synthetic Data Generator". |
| Reassembler.AmdSection | src/data_archive_ml_synthesizer/reassembler.py:157-170 | `amdSec` holds one `techMD` with ID AMD1, whatever the tables hold. Its one `mdWrap` has MDTYPE OTHER and OTHERMDTYPE DNX. |
| Reassembler.DcChildrenAppend | src/data_archive_ml_synthesizer/reassembler.py:139-146 | Dublin Core children follow the column order: two runs of columns give their elements one after the other. |
| Reassembler.DcChildrenMembers | src/data_archive_ml_synthesizer/reassembler.py:139-146 | An element is a Dublin Core child exactly when some column other than `dmd_id`, prefixed `dc_` and not null, produces it: named without the first three characters, with the value as text. |
| Reassembler.OtherColumnIgnored | src/data_archive_ml_synthesizer/reassembler.py:139-143 | A column that is `dmd_id`, null, or not prefixed `dc_` adds nothing, wherever it stands. |
| Reassembler.DmdSectionShape | src/data_archive_ml_synthesizer/reassembler.py:124-146 | A `dmdSec` is built exactly when `dmd_id` is present and not null. An absent `dmd_id` is a missing-column error. The built element has ID `dmd_id` and wraps the Dublin Core record as MDTYPE DC. |
| Reassembler.CreateDmdSections | src/data_archive_ml_synthesizer/reassembler.py:124-146 | The loop over the rows gives one `dmdSec` per row in order, or the first row's failure. |
| Reassembler.FileSection | src/data_archive_ml_synthesizer/reassembler.py:183-204 | `fileSec` holds a single `fileGrp USE="CONTENT"`, with one `file` element per entry in order. |
| Reassembler.FileEntryShape | src/data_archive_ml_synthesizer/reassembler.py:186-211 | A `file` element always has ID `file_id` and DMDID `dmd_id`. MIMETYPE, CHECKSUMTYPE, href and LOCTYPE take their defaults (`application/octet-stream`, `MD5`, `file://` + id, `URL`) only when the column is absent. SIZE and CHECKSUM appear only when not null, and CHECKSUMTYPE exactly when CHECKSUM does. There is exactly one `FLocat`. |
| Reassembler.FileRowMissing | src/data_archive_ml_synthesizer/reassembler.py:187-188 | A `file` row fails on a missing column exactly when it lacks `file_id` or `dmd_id`, and `file_id` is reported first. |
| Reassembler.ReadFileRows | src/data_archive_ml_synthesizer/reassembler.py:186-211 | The row loop reads every `file` row in order or stops at the first failure. |
| Reassembler.ReadStructRows | src/data_archive_ml_synthesizer/reassembler.py:263-296 | The first pass reads `struct_id`, `dmd_id` and the optional columns of every row. The second pass then needs `parent_id` in every row. |
| Reassembler.BuildRoot | src/data_archive_ml_synthesizer/reassembler.py:64-80 | The root's children, added one after the other, are `Root`. |
| Reassembler.Reassemble | src/data_archive_ml_synthesizer/reassembler.py:55-80 | A missing table fails before anything is built. Otherwise the result is `Reassembled`, and the first failing section's error is the one raised. |
| Reassembler.ReassembledOk | src/data_archive_ml_synthesizer/reassembler.py:55-80 | `reassemble` succeeds exactly when all three tables are there and every row of each can be read. |
| Reassembler.RootLayout | src/data_archive_ml_synthesizer/reassembler.py:64-80 | The root's children are `metsHdr`, the `dmdSec` elements, `amdSec`, `fileSec`, `structMap`. `dmdSec` elements sit exactly at positions 1..n, and the only `amdSec` sits at n+1. |
| Reassembler.SectionLayout | src/data_archive_ml_synthesizer/reassembler.py:65-80 | In a reassembled document: one `metsHdr`, then one `dmdSec` per `dmdSec` row in row order, then exactly one `amdSec` whatever the table sizes, then `fileSec` and `structMap`. |
| Reassembler.FileLayout | src/data_archive_ml_synthesizer/reassembler.py:183-211 | The reassembled `fileGrp` holds one `file` element per `file` row, in row order. |
| Reassembler.StructMapLayout | src/data_archive_ml_synthesizer/reassembler.py:76-80 | The reassembled `structMap` is the division forest of the `structMap` rows. It points through the mapping built from the `file` rows. |
| Metadata.IdSuffixWins | src/data_archive_ml_synthesizer/metadata_builder.py:72-73 | A column whose name ends in `_id` is an id column, whatever its dtype. |
| Metadata.DateIgnoresCase | src/data_archive_ml_synthesizer/metadata_builder.py:74-75 | Past the `_id` rule, a column is datetime exactly when its lower-cased name contains `date`. Names that differ only in case classify alike. |
| Metadata.NumericDecidesLast | src/data_archive_ml_synthesizer/metadata_builder.py:71-79 | The dtype changes the type only for columns that neither end in `_id` nor mention a date. Such a column is numerical when numeric and categorical otherwise. |
| Metadata.BuildMetadata | src/data_archive_ml_synthesizer/metadata_builder.py:53-104 | The nested loops that add tables, columns and keys, followed by the two relationships, produce `MetadataOf`. |
| Metadata.TablesAndKeys | src/data_archive_ml_synthesizer/metadata_builder.py:81-87 | The tables are `dmdSec`, `file`, `structMap` in that order, with primary keys `dmd_id`, `file_id`, `struct_id`. |
| Metadata.ColumnsListed | src/data_archive_ml_synthesizer/metadata_builder.py:67-79 | Every column of a frame is listed once under its table, in order, with its classified type. |
| Metadata.RelationshipShape | src/data_archive_ml_synthesizer/metadata_builder.py:89-109 | There are exactly two edges, `dmdSec.dmd_id` to `file.dmd_id` and to `structMap.dmd_id`. No edge is a self-edge, and `parent_id` takes part in none. |
| Metadata.ParentIdKept | src/data_archive_ml_synthesizer/metadata_builder.py:106-109 | A `parent_id` column stays in `structMap`, classified `id`, and is not its primary key. |
| Loader.MissingSpec | src/data_archive_ml_synthesizer/loader.py:124 | The missing-column list holds exactly the required columns the table lacks, and is no longer than the required list. |
| Loader.ValidateSpec | src/data_archive_ml_synthesizer/loader.py:109-138 | A table passes exactly when it is not empty (rows and columns) and has every required column of its name. An empty table is rejected first, whatever its name. |
| Loader.MissingReported | src/data_archive_ml_synthesizer/loader.py:115-136 | Only the three named tables can fail past the emptiness check. `dmdSec` names `dmd_id`. `file` and `structMap` list their missing columns in the required order. |
| Loader.FileMissing | src/data_archive_ml_synthesizer/loader.py:122-128 | For `file`: `file_id` if absent, then `dmd_id` if absent. |
| Loader.StructMapMissing | src/data_archive_ml_synthesizer/loader.py:130-136 | For `structMap`: `struct_id`, `dmd_id`, `parent_id`, each if absent, in that order. |
| Loader.Message | src/data_archive_ml_synthesizer/loader.py:109-136 | Every structural error message starts with the table's name. |
| Loader.LoadOrder | src/data_archive_ml_synthesizer/loader.py:47-96 | Tables load in the order `dmdSec`, `file`, `structMap`, and the first failure is raised. A missing file fails before any decoding. Loading succeeds exactly when all three load. |
| Sampling.DropUnknownReferences | src/data_archive_ml_synthesizer/model.py:81-85 | Cleaning keeps every table and its columns. Each cleaned table's rows are a subsequence of the original rows: nothing is added or reordered. When no parent table is itself a child, every relationship holds afterwards: each child row's foreign key is non-null and names a parent key. |
| Sampling.BuiltMetadataParentsAreRoots | src/data_archive_ml_synthesizer/metadata_builder.py:89-104 | In the graph `build_metadata` produces, no parent table is also a child. |
| Sampling.TrainingDataClean | src/data_archive_ml_synthesizer/model.py:81-92 | With that graph, the cleaned training tables satisfy both relationships. |
| Sampling.RowCounts | src/data_archive_ml_synthesizer/model.py:119-122 | The counts are the explicit argument if given. Otherwise they are the configured `sampling.num_rows` if non-empty, and otherwise 100 for every table the metadata names. |
| Sampling.Head | src/data_archive_ml_synthesizer/model.py:131 | `head` keeps the columns and returns a prefix of the rows. |
| Sampling.TruncatedSpec | src/data_archive_ml_synthesizer/model.py:128-131 | Truncation keeps the set of tables, and a count for an absent table is ignored. A table without a count is unchanged. With count n >= 0 a table becomes its first min(len, n) rows. A negative count drops that many rows from the end. |
| Sampling.TruncatedIdempotent | src/data_archive_ml_synthesizer/model.py:128-131 | With counts that are not negative, truncating again changes nothing. |
| Sampling.GenerativeModel.constructor | src/data_archive_ml_synthesizer/model.py:54-64 | A new model has neither a synthesizer nor metadata. |
| Sampling.GenerativeModel.Train | src/data_archive_ml_synthesizer/model.py:66-92 | Training stores the metadata and a synthesizer built from it and fitted on the cleaned tables. |
| Sampling.TruncateTables | src/data_archive_ml_synthesizer/model.py:128-131 | Each table named in the row counts and longer than its count is cut with `head`. Every other table is unchanged. |
| Sampling.GenerativeModel.Sample | src/data_archive_ml_synthesizer/model.py:101-134 | Sampling before training fails. Otherwise the result is the generator's tables truncated with the chosen row counts. |
| Validator.Complaint | src/data_archive_ml_synthesizer/validator.py:68-82 | A schema contributes no message exactly when the document passes it, and at most one message otherwise. |
| Validator.MessagesAppend | src/data_archive_ml_synthesizer/validator.py:65-82 | Every schema is tried whatever earlier ones gave: the messages of two runs of schemas concatenate. |
| Validator.MessagesCount | src/data_archive_ml_synthesizer/validator.py:61-89 | There is one message per failing schema. The list is empty exactly when every schema passes. |
| Validator.FailureReported | src/data_archive_ml_synthesizer/validator.py:72-82 | Each failing schema's message, naming the schema and the reason, is among the messages. |
| Validator.Report | src/data_archive_ml_synthesizer/validator.py:89 | Without detailed output, the result is the flag the detailed form carries first. |
| Validator.ValidationFlag | src/data_archive_ml_synthesizer/validator.py:54-89 | For a document file, the flag is set exactly when there is no message. |
| Validator.ParseFailureIgnoresSchemas | src/data_archive_ml_synthesizer/validator.py:54-59 | A document that fails to parse gets (false, one message) and no schema is consulted. |
| Validator.LoadedSpec | src/data_archive_ml_synthesizer/validator.py:155-166 | The cache holds the configured schemas before the first one that fails to compile, in order. Loading succeeds exactly when all compile. Otherwise the failure names the first schema outside the cache. |
| Validator.LoadFailures | src/data_archive_ml_synthesizer/validator.py:147-166 | No configured paths is an error. A success caches every schema. A failure after a first success leaves a partial, non-empty cache. |
| Validator.XmlValidator.constructor | src/data_archive_ml_synthesizer/validator.py:22-31 | The cache starts empty. The configured schema names are distinct, as the keys of the configuration's dictionary are. |
| Validator.XmlValidator.LoadSchemas | src/data_archive_ml_synthesizer/validator.py:141-168 | Loading caches `Loaded` and reports `LoadOutcome`. |
| Validator.XmlValidator.Aggregate | src/data_archive_ml_synthesizer/validator.py:61-89 | The loop tries every cached schema. The flag is true exactly when all pass, which is exactly when no message was collected. |
| Validator.XmlValidator.Validate | src/data_archive_ml_synthesizer/validator.py:33-89 | The cache is loaded only when it is empty, and a load failure is raised. A cache that is not empty, even a partial one, is kept and never reloaded. The result is `Validation` in the requested form. |
| Validator.XmlValidator.ValidateElement | src/data_archive_ml_synthesizer/validator.py:91-139 | The same lazy load and aggregation, with no parse step. |

## Left out

- XML machinery. Namespace registration and declarations, serialisation and `_save_xml` are left out. Names are (namespace, local name) pairs. lxml's rules on element names are not modelled, for example a bare `dc_` column producing an empty element name.
- pandas specifics:
  - Cell values are strings or null. NaN detection is not modelled.
  - A non-string cell that lxml would refuse is not modelled.
  - `str()` formatting of numbers (an `order` of `1.0`) is not modelled.
  - Lower-casing in the date rule is ASCII only.
  - A column's numeric dtype is an abstract flag.
- Reassembler.Defaulted: a present-but-null `mimetype`, `checksumtype`, `href` or `loctype` is modelled as an error. This stands for the foreign TypeError lxml raises on a non-string attribute value. The exact exception is not modelled.
- Reassembler.Reassemble: requires unique `struct_id`s and acyclic `parent_id` chains. What lxml does when an element is appended inside its own subtree is foreign. With duplicate ids, later rows overwrite `divisions` entries.
- Saving the XML when an output path is configured is left out (reassembler.py:82-87). It is file I/O.
- Metadata validation and the SDV metadata object's own checks are left out (metadata_builder.py:111-112).
- Sampling.DropUnknownReferences: the body of this library function is not visible. A stand-in body keeps the child rows whose foreign keys name a parent key. The contract claims only that rows are dropped but never added or reordered, and that every relationship holds when no parent is itself a child. It claims nothing for other graphs.
- Sampling.GenerativeModel.Train: training errors inside the generator are not modelled. Neither are the metadata conversion and model saving. The fitted synthesizer is recorded as the metadata and data it was fitted on.
- Sampling.GenerativeModel.Sample: what the generator produces is an input. Generation itself is not modelled.
- JSON decoding and DataFrame construction become the `Source` a loader receives. Only their outcome is modelled: missing file, invalid JSON, or a decoded table.
- Loader.LoadOrder: errors raised while building the DataFrame (other than invalid JSON) are not modelled.
- Schema compilation, XML parsing and schema validation are functions passed in. Compilation is a constant of the validator. Logging is left out everywhere.
- Orchestration is left out: the pipeline, the sampler wrapper whose post-processing is the identity, and the command line.
