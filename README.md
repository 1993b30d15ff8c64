# RAG demo core, modelled in Dafny

This project models the sequential logic of a small retrieval-augmented
generation (RAG) demo that sits on a LlamaStack server:

- **Configuration** (`AppConfig`, `RAGServerConfig`). Environment variables
  are read once at construction. Getters fall back to fixed defaults when a
  variable is unset or empty, parse integers with Python's `int()`, split and
  strip the comma-separated `LOCAL_FILES` list, generate a vector database
  name from a random UUID, and build the local base URL.
- **The RAG agent manager** (`RAGAgentManager`). An object whose
  `initialize_agent` sets the agent and session fields. Its `make_query`
  refuses to run before that, then folds the agent's response stream into the
  concatenated answer text and a "chunks found" flag.
- **The two document loaders.** `DocumentSystem` normalises pasted text
  (line feeds become spaces, then the ends are stripped). It also converts a
  batch of existing files, keeping every result whose normalised text is
  non-empty and keeping what it has collected when the converter raises.
  `DocumentService` reads plain-text files in order, skips missing files,
  names each document after its path's position, and lets any other read
  error end the load.

Python's own string and integer semantics are modelled where the results
depend on them, in the modules `Strings` and `Integers`:

- `str.strip()` with Python's whitespace set (`str.isspace()`);
- `split`/`join` on one character;
- `replace("\n", " ")`;
- `int()` on text: surrounding whitespace, a sign, and digit groups separated
  by single underscores. The whitespace `int()` skips is smaller than the set
  `strip()` removes: it leaves out the ASCII information separators U+001C to
  U+001F, so `int("\x1c8080")` raises `ValueError` (`Integers.IsIntSpace`);
- `str()` of an integer.

Everything foreign is a parameter:

- The environment is a `map<string, string>`.
- Each random UUID is a 32-character lower-case hex string. For a batch it is
  a function from the position of a document to the text of its id suffix.
  `DocumentSystem.CollectedIds` shows that when that function always gives
  a `uuid4().hex`, every id has the 36-character `doc-<hex>` shape.
- `Path.exists` is a predicate.
- The file reader is a function to a read outcome.
- The document converter is a function from a path to a conversion outcome.
- The agent's response stream is a sequence of events.

The configuration classes are immutable values: a `datatype` whose member
functions are the getters. The agent manager is a `class` whose methods
change its two fields. Both loaders are methods with loops, proved against
recursive specification functions. The properties of those functions are
proved as lemmas.

Two behaviours of the code worth stating outright:

- `DocumentService.load_from_local_files` catches only `FileNotFoundError`
  (app/document_service.py, line 24). Any other read error ends the
  load with that error.
- `int(None)`, for an unset variable read without a default, raises
  `TypeError`. `int()` on text that is not an integer literal raises
  `ValueError`. `ConversionError` keeps the two apart.

## Model

| member | source | states |
|---|---|---|
| Strings.Strip | app/app_config.py:33 | `str.strip()`: the result has no whitespace at either end and is no longer than the input; the whitespace set is a parameter, `str.isspace()`'s by default |
| Strings.StripStripped | app/app_config.py:33 | text with no whitespace at either end is left unchanged by `strip()` |
| Strings.StripSlice | app/app_config.py:33 | what `strip()` keeps is one contiguous slice of the input, and everything removed before and after it is whitespace |
| Strings.StripFramed | app/app_config.py:33 | whitespace-framed text with no whitespace at its own ends strips to exactly that text |
| Strings.StripKeepsFirst | app/app_config.py:20 | a first character that is not whitespace survives stripping as the first character |
| Strings.StripKeepsLast | app/app_config.py:20 | a last character that is not whitespace survives stripping as the last character |
| Strings.ReplaceNewlines | app/document_system.py:111 | `replace("\n", " ")` keeps the length and leaves no line feed |
| Strings.ReplaceNewlinesAt | app/document_system.py:111 | each line feed becomes a space and every other character stays at its position |
| Strings.ReplaceNewlinesWithoutNewline | app/document_system.py:111 | text without line feeds is left unchanged |
| Strings.Split | app/app_config.py:33 | `split(",")` gives one more piece than there are separators, and no piece contains the separator |
| Strings.JoinSplit | app/app_config.py:33 | joining the pieces of a split with the separator gives back the original string |
| Strings.SplitJoin | app/app_config.py:33 | splitting a join of separator-free parts gives back the parts |
| Integers.NatDigits | app/app_config.py:49 | the digits of a natural number are non-empty, all decimal digits, with no leading zero |
| Integers.Decimal | app/app_config.py:49 | `str(n)` is non-empty, starts with a minus sign exactly when `n` is negative, and the rest is a non-empty run of digits without a leading zero |
| Integers.WithoutUnderscores | app/app_config.py:20 | dropping the group underscores leaves only digits, exactly one fewer character per underscore, and a plain run of digits is unchanged |
| Integers.WithoutUnderscoresAppend | app/app_config.py:20 | the digits of a concatenation are the digits of each part, in order |
| Integers.UnderscoreDropped | app/app_config.py:20 | an underscore between two parts contributes no digit |
| Integers.ParseInt | app/app_config.py:20 | `int(s)` succeeds exactly when the text, with `int()`'s whitespace (`IsIntSpace`: no information separators) skipped at both ends, is an integer literal (an optional sign, then digit groups); rejects blank text, and gives a negative value only for a leading minus sign |
| Integers.ParseLiteral | app/app_config.py:20 | the stripped text accepted exactly when it is an integer literal, empty text rejected, a negative value only after a leading minus sign |
| Integers.ParseLiteralSigned | app/app_config.py:20 | digit groups after a sign parse to the groups' value, negated for a minus sign |
| Integers.ParseLiteralUnsigned | app/app_config.py:20 | digit groups with no sign parse to the groups' value |
| Integers.ParseLiteralSignedGroups | app/app_config.py:20 | an optional sign followed by digit groups parses to the groups' value, negated exactly for a minus sign |
| Integers.ParseIntLiteral | app/app_config.py:20 | the value of every literal `int()` accepts: surrounding `int()` whitespace ignored, the sign applied, underscores between groups skipped (`int(" -1_007 ") == -1007`) |
| Integers.ParseIntDigitGroups | app/app_config.py:20 | unsigned digit groups parse to the value of their digits |
| Integers.ParseIntPadded | app/app_config.py:20 | surrounding `int()` whitespace is ignored: `int(" 42\n") == 42` for every integer |
| Integers.ParseIntPlus | app/app_config.py:20 | an explicit plus sign is accepted, with `int()` whitespace around it: `int("+42") == 42` for every natural number |
| Integers.DigitsValueLeadingZeros | app/app_config.py:20 | leading zeros do not change the value of a run of digits |
| Integers.ParseIntLeadingZeros | app/app_config.py:20 | leading zeros are accepted: `int("007") == 7` for every natural number |
| Integers.GroupsJoin | app/app_config.py:20 | two digit groups side by side, with or without an underscore between them, are digit groups |
| Integers.ParseIntGrouped | app/app_config.py:20 | an underscore between two digit groups does not change the value: `int("1_000") == int("1000")` |
| Integers.ParseIntRejects | app/app_config.py:20 | text with a character, after an optional leading sign, that is neither a digit nor an underscore is rejected, as `int("1.5")` raises `ValueError` |
| Integers.ParseIntRejectsSeparator | app/app_config.py:20 | text that starts or ends with an information separator U+001C to U+001F is rejected, as `int("\x1c8080")` raises `ValueError` |
| Integers.SeparatorStrippedNotSkipped | app/app_config.py:20 | the two whitespace sets differ: `strip()` removes U+001C from `"\x1c5"`, `int()` rejects the same text |
| Integers.DigitsValueOfNatDigits | app/app_config.py:20 | reading the digits of `n` back gives `n` |
| Integers.DecimalRoundTrip | app/app_config.py:20 | `int(str(n)) == n` for every integer |
| Integers.DecimalStripped | app/app_config.py:49 | `str(n)` has no whitespace for `int()` to skip |
| Integers.DecimalRoundTripAll | app/app_config.py:20 | the round trip holds for all integers at once |
| Integers.DecimalInjective | app/document_service.py:17 | distinct integers have distinct decimal forms |
| Settings.Get | app/app_config.py:10-17 | `os.environ.get`: present exactly when the variable is in the environment, with its value |
| Settings.ReadFrom | app/app_config.py:10-17 | what `os.environ.get(name)` gives: the value when the variable is set, nothing otherwise |
| Settings.IsSet | app/app_config.py:20 | Python truthiness of an optional string: present and non-empty |
| Settings.ToInt | app/rag_server_config.py:60-61 | `int(v)`: fails with `TypeError` on an absent value; on text, succeeds exactly when `int()` parses it, with the parsed value, and otherwise fails with `ValueError`, in particular on text framed by an information separator; reads back every decimal numeral |
| Settings.IntOr | app/app_config.py:19-20 | `int(v) if v else d`: the default when unset or empty; otherwise succeeds exactly when `int()` parses the value, with the parsed value, and fails with `ValueError` otherwise, in particular on text framed by an information separator |
| Settings.StrOr | app/app_config.py:22-23 | `v or d`: the value when non-empty, the default otherwise |
| Settings.LocalhostUrl | app/app_config.py:47-49 | the URL is the `http://localhost:` prefix followed by exactly `str(port)`, which parses back to the port |
| Settings.DefaultLocalhostUrl | app/app_config.py:47-49 | with the default port 8321 the base URL is `http://localhost:8321` |
| AppConfiguration.AppConfig.LlamaStackPort | app/app_config.py:19-20 | 8321 when unset or empty; otherwise succeeds exactly when `int()` parses the value, with the parsed value (so `" 42"`, `"+42"`, `"0042"` and `"4_2"` all give 42), and fails with `ValueError` otherwise (so `"\x1c8080"` fails) |
| AppConfiguration.AppConfig.InferenceModel | app/app_config.py:22-23 | the raw value when non-empty, otherwise `ollama/llama3.2:3b-instruct-fp16` |
| AppConfiguration.AppConfig.EmbeddingModel | app/app_config.py:25-26 | the raw value when non-empty, otherwise `ollama/all-minilm:latest` |
| AppConfiguration.AppConfig.EmbeddingDim | app/app_config.py:28-29 | 384 when unset or empty; otherwise succeeds exactly when `int()` parses the value, with the parsed value (so `" 42"`, `"+42"`, `"0042"` and `"4_2"` all give 42), and fails with `ValueError` otherwise (so `"\x1c42"` fails) |
| AppConfiguration.AppConfig.LocalFiles | app/app_config.py:31-36 | the two default files when unset or empty; otherwise one entry per comma plus one, in input order, each the stripped piece of the split, comma-free and with no whitespace at either end, empty entries kept |
| AppConfiguration.AppConfig.VectorDbProvider | app/app_config.py:38-39 | the raw value when non-empty, otherwise `milvus` |
| AppConfiguration.AppConfig.ChunkSizeInTokens | app/app_config.py:41-42 | 256 when unset or empty; otherwise succeeds exactly when `int()` parses the value, with the parsed value (so `" 42"`, `"+42"`, `"0042"` and `"4_2"` all give 42), and fails with `ValueError` otherwise (so `"\x1c42"` fails) |
| AppConfiguration.AppConfig.RagTopK | app/app_config.py:44-45 | 3 when unset or empty; otherwise succeeds exactly when `int()` parses the value, with the parsed value (so `" 42"`, `"+42"`, `"0042"` and `"4_2"` all give 42), and fails with `ValueError` otherwise (so `"\x1c42"` fails) |
| AppConfiguration.AppConfig.BaseUrl | app/app_config.py:47-49 | succeeds exactly when the port does; the `http://localhost:` prefix followed by `str(port)`, which parses back to the port; otherwise the port's error |
| AppConfiguration.FromEnvironment | app/app_config.py:8-17 | each of the eight fields holds what `os.environ.get` gives for the variable of the same name |
| AppConfiguration.UnsetEnvironmentDefaults | app/app_config.py:8-49 | with every variable unset or empty, every getter gives its default, including the URL `http://localhost:8321` |
| AppConfiguration.DefaultBaseUrl | app/app_config.py:47-49 | with the port unset the base URL is `http://localhost:8321` |
| AppConfiguration.LocalFilesRoundTrip | app/app_config.py:31-34 | joining stripped, comma-free names with "," and reading them back through `LOCAL_FILES` gives the same names |
| RagServerConfiguration.RAGServerConfig.LlamaStackPort | app/rag_server_config.py:26-27 | 8321 when unset or empty; otherwise succeeds exactly when `int()` parses the value, with the parsed value (so `" 42"`, `"+42"`, `"0042"` and `"4_2"` all give 42), and fails with `ValueError` otherwise (so `"\x1c8080"` fails) |
| RagServerConfiguration.RAGServerConfig.InferenceModel | app/rag_server_config.py:29-30 | the raw value when non-empty, otherwise `ollama/llama3.2:3b-instruct-fp16` |
| RagServerConfiguration.RAGServerConfig.EmbeddingModel | app/rag_server_config.py:32-33 | the raw value when non-empty, otherwise `ollama/all-minilm:latest` |
| RagServerConfiguration.RAGServerConfig.EmbeddingDim | app/rag_server_config.py:35-36 | 384 when unset or empty; otherwise succeeds exactly when `int()` parses the value, with the parsed value (so `" 42"`, `"+42"`, `"0042"` and `"4_2"` all give 42), and fails with `ValueError` otherwise (so `"\x1c42"` fails) |
| RagServerConfiguration.RAGServerConfig.VectorDbProvider | app/rag_server_config.py:38-39 | the raw value when non-empty, otherwise `milvus` |
| RagServerConfiguration.RAGServerConfig.ChunkSizeInTokens | app/rag_server_config.py:41-42 | 256 when unset or empty; otherwise succeeds exactly when `int()` parses the value, with the parsed value (so `" 42"`, `"+42"`, `"0042"` and `"4_2"` all give 42), and fails with `ValueError` otherwise (so `"\x1c42"` fails) |
| RagServerConfiguration.RAGServerConfig.RagTopK | app/rag_server_config.py:44-45 | 3 when unset or empty; otherwise succeeds exactly when `int()` parses the value, with the parsed value (so `" 42"`, `"+42"`, `"0042"` and `"4_2"` all give 42), and fails with `ValueError` otherwise (so `"\x1c42"` fails) |
| RagServerConfiguration.RAGServerConfig.VectorDbName | app/rag_server_config.py:47-52 | the configured name verbatim when non-empty; otherwise `rag-db-` followed by exactly the given `uuid4().hex`, 39 characters in all |
| RagServerConfiguration.GeneratedNamesDistinct | app/rag_server_config.py:47-52 | with no name configured, two different UUIDs give two different database names |
| RagServerConfiguration.RAGServerConfig.VlmModelName | app/rag_server_config.py:54-55 | the raw variable, with no default, possibly absent |
| RagServerConfiguration.RAGServerConfig.OllamaApiUrlForGenerating | app/rag_server_config.py:57-58 | the raw variable, with no default, possibly absent |
| RagServerConfiguration.RAGServerConfig.MinOcrTextLength | app/rag_server_config.py:60-61 | no default: fails with `TypeError` when unset; on text, succeeds exactly when `int()` parses it, with the parsed value, and otherwise (empty text and `"\x1c5"` included) fails with `ValueError` |
| RagServerConfiguration.RAGServerConfig.BaseUrl | app/rag_server_config.py:63-65 | succeeds exactly when the port does; the `http://localhost:` prefix followed by `str(port)`, which parses back to the port; otherwise the port's error |
| RagServerConfiguration.FromEnvironment | app/rag_server_config.py:8-24 | each of the eleven fields holds what `os.environ.get` gives for the variable of the same name |
| RagServerConfiguration.UnsetEnvironmentDefaults | app/rag_server_config.py:8-65 | in an empty environment every defaulted getter gives its default, the database name is generated, the vision settings are absent and the OCR threshold fails as unset |
| RagServerConfiguration.EmptyVariablesWithoutDefault | app/rag_server_config.py:54-61 | an empty vision-model name stays `""` rather than absent, and an empty OCR threshold fails as malformed text |
| RagAgentManagement.BuildAgentConfig | app/rag_agent_manager.py:20-34 | the configured inference model, the given instructions, persistence disabled, and exactly one `builtin::rag` tool group scoped to exactly `[vector_db_id]`, with the configured top-k and threshold 0.0; fails exactly when top-k cannot be read |
| RagAgentManagement.Absorb | app/rag_agent_manager.py:58-77 | the effect of one event: its delta text, if any, is appended to the answer (an absent answer becoming `""` first), and the flag is raised by a knowledge-search call with results; its meaning over whole streams is `FoldStreamMeaning` |
| RagAgentManagement.FoldStream | app/rag_agent_manager.py:55-77 | the outputs after the events in order, starting from `(None, False)`; its meaning is `FoldStreamMeaning` |
| RagAgentManagement.FoldStreamMeaning | app/rag_agent_manager.py:55-77 | the answer is absent exactly when no event carries a text delta, and otherwise is the in-order concatenation of all delta texts; chunks are found exactly when some knowledge-search call retrieved something |
| RagAgentManagement.DeltasWitness | app/rag_agent_manager.py:72-77 | a non-empty list of delta texts comes from some event with a delta |
| RagAgentManagement.ChunksFoundMonotone | app/rag_agent_manager.py:56-64 | once chunks have been found, no later event resets the flag |
| RagAgentManagement.EmptyDeltaAnswers | app/rag_agent_manager.py:75-77 | a stream whose only deltas are empty answers `""`, not `None` |
| RagAgentManagement.EmptyDeltasConcat | app/rag_agent_manager.py:72-77 | concatenating only empty deltas gives the empty text |
| RagAgentManagement.RAGAgentManager.constructor | app/rag_agent_manager.py:11-15 | a fresh manager keeps its configuration and has neither agent nor session |
| RagAgentManagement.RAGAgentManager.Initialized | app/rag_agent_manager.py:43 | the guard of `make_query`: an agent is set and the session id is set and non-empty |
| RagAgentManagement.RAGAgentManager.InitializeAgent | app/rag_agent_manager.py:17-38 | on success the agent holds the built configuration and the session id is the one the service returned; if top-k cannot be read, the error is raised and neither field changes |
| RagAgentManagement.RAGAgentManager.MakeQuery | app/rag_agent_manager.py:40-79 | fails exactly when the agent or the session id is unset or empty; otherwise returns the fold of the stream, with an answer exactly when some delta arrived, equal to the concatenated deltas, and chunks found exactly when a knowledge search retrieved something |
| DocumentSystem.NormalizeClean | app/document_system.py:111 | normalised text has no line feed, no whitespace at either end, and is no longer than the input |
| DocumentSystem.NormalizeIdempotent | app/document_system.py:111 | normalising twice is the same as normalising once |
| DocumentSystem.Normalize | app/document_system.py:79 | `text.replace("\n", " ").strip()`: no whitespace at either end, no longer than the text; `NormalizeClean` adds that no line feed is left |
| DocumentSystem.CreateDocumentFromText | app/document_system.py:107-117 | the content is the normalised text, with no line feed and no whitespace at either end; type `text/plain`; source the given one; id `doc-` followed by exactly the given `uuid4().hex`, 36 characters in all |
| DocumentSystem.BatchDocument | app/document_system.py:79-88 | the document made from a converted file: the id is `doc-` followed by the given suffix, the content the normalised text with no line feed and no whitespace at either end, type `text/plain`, the file as its source |
| DocumentSystem.ExistingPathsMeaning | app/document_system.py:65 | the existing paths are exactly the given paths that exist, each as many times as it is given, nothing else, and no more of them than given |
| DocumentSystem.ExistingPaths | app/document_system.py:65 | the comprehension over the given paths: no more paths than given; its meaning is `ExistingPathsMeaning` and `ExistingPathsAppend` |
| DocumentSystem.ExistingPathsAppend | app/document_system.py:65 | filtering keeps the input order: the existing paths of two parts are those of the first followed by those of the second |
| DocumentSystem.ConvertedCount | app/document_system.py:72-100 | the batch gets through every input before the first one the converter raises on, and stops there |
| DocumentSystem.ConvertedCountStep | app/document_system.py:75-100 | at an input the converter raises on, the batch ends; past any other, it goes on |
| DocumentSystem.Collected | app/document_system.py:75-97 | no more documents than files; the `j`-th document made takes the `j`-th random id |
| DocumentSystem.CollectedSound | app/document_system.py:76-88 | every collected document comes from one of the files: its conversion gave a document, the content is that text normalised and non-empty, type `text/plain`, source the file |
| DocumentSystem.CollectedComplete | app/document_system.py:76-88 | every file whose conversion yields non-blank text has its document among those collected |
| DocumentSystem.CollectedKeep | app/document_system.py:79-88 | a file whose conversion yields non-blank text appends its document with the next unused id |
| DocumentSystem.CollectedSkip | app/document_system.py:90-97 | a file whose conversion gives no document, or blank text, adds nothing |
| DocumentSystem.CollectedPrefix | app/document_system.py:75-100 | later files only append documents after those of earlier files, so what was collected before an exception is kept |
| DocumentSystem.CollectedIds | app/document_system.py:83-84 | when the UUID source always gives a `uuid4().hex`, every collected id is `doc-` followed by it, 36 characters in all |
| DocumentSystem.CollectedFromExisting | app/document_system.py:65-97 | every document collected from the existing paths has clean non-empty content, type `text/plain`, and a source that is one of the given paths and exists |
| DocumentSystem.LoadFromLocalFiles | app/document_system.py:59-105 | returns `[]` when no path exists; otherwise exactly the documents collected from the existing paths up to the first one the converter raises on, never more than there are existing paths |
| DocumentService.FileDocument | app/document_service.py:16-21 | the document for the `i`-th path: id `doc-` followed by the decimal `i`, the text read unchanged, type `text/plain`, the path as its source |
| DocumentService.ReadIndices | app/document_service.py:12-25 | the positions of the readable paths, strictly increasing, all of them, and no more than there are paths |
| DocumentService.ReadDocuments | app/document_service.py:9-26 | the outcome of loading the paths in order: on success, no more documents than paths; its meaning is given by `ReadDocumentsSucceeds`, `ReadDocumentsFailure` and `ReadDocumentsContent` |
| DocumentService.FailureSticks | app/document_service.py:12-26 | once a read has failed other than by a missing file, the load has failed with that error whatever follows |
| DocumentService.ReadDocumentsSucceeds | app/document_service.py:12-26 | the load succeeds exactly when no path fails other than by being missing |
| DocumentService.ReadDocumentsFailure | app/document_service.py:12-26 | a failed load reports the error of the first path whose read failed other than by being missing |
| DocumentService.ReadDocumentsContent | app/document_service.py:12-25 | one document per readable path, in path order: the `j`-th document has id `doc-<i>` for the `j`-th readable position `i`, the text read from the file, type `text/plain` and the path as its source |
| DocumentService.DistinctIds | app/document_service.py:17 | the documents of a successful load have pairwise distinct ids |
| DocumentService.LoadFromLocalFiles | app/document_service.py:9-26 | the loop's result is the load's specification: documents for the readable files, missing ones skipped, or the error of the first other failure |

## Left out

- The process environment, the file system, the document converter, the
  LlamaStack server and the UUID generator are not modelled. Each is a
  parameter: a map, a predicate or function on paths, a sequence of stream
  events, or a hex string or a function to hex strings.
- `int()` on text is modelled for ASCII digits only. Python also accepts
  other Unicode decimal digits, and limits conversions to 4300 digits; both
  are left out.
- Paths are compared as the strings given. `Path(p)` normalisation, which
  can change the `source` string the converter-based loader records, is left
  out.
- Console output is left out: the progress messages, warnings, 200-character
  previews of retrieved chunks and their `:.3f` scores.
- The LlamaStack client singleton, `rag_agent.py`, `main.py` and the vector
  database manager are not part of this model.
- The converter's construction in `DocumentSystem.__init__` (the OCR
  engine, PDF pipeline and image options) is left out; its effect is inside
  the conversion outcome a path maps to.
- RagAgentManagement.RAGAgentManager.InitializeAgent: the client handle and
  the session name `matias-rag-session` sent to the service are not modelled.
  The session id the service returns is a parameter. Failures of the
  service calls are not modelled: in the code, if `Agent(...)` raises nothing
  changes, and if `create_session` raises the agent has already been replaced
  while the session id keeps its old value.
- RagAgentManagement.RAGAgentManager.MakeQuery: the user prompt is only
  forwarded to the service, which is not modelled. The stream is the
  service's reply, given as a parameter.
- DocumentService.LoadFromLocalFiles: decoding the file as UTF-8 is part of
  the read function. A decoding error is a read failure like any other
  non-missing-file error. So is `Path.read_text()`'s universal-newline mode:
  the text the read function gives already has `"\r\n"` and `"\r"` turned
  into `"\n"`, and the documents hold that text, not the file's bytes.
- DocumentSystem.LoadFromLocalFiles: the method's contract ties the result to
  `Collected`. The per-document facts (clean content, source among the
  existing paths) are stated by `DocumentSystem.CollectedFromExisting` and
  `DocumentSystem.CollectedSound`, not repeated in the method's `ensures`.
- DocumentSystem.LoadFromLocalFiles: the converter either gives a result
  for every path or raises at one. A converter that raises before converting
  anything is the case where it raises at the first path. The batch
  converter's laziness, which makes results arrive one at a time, is
  captured only by this order.
- ParseInt: its contract states which texts `int()` accepts, with `int()`'s
  own whitespace set, and the sign of the result. The value of every accepted literal is stated by the lemma
  `ParseIntLiteral`, not by an `ensures` of its own.
- Floating point: the similarity threshold is the constant 0.0, as a `real`.
