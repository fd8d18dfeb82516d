# Verification of the bible service

This project models the parts of the repository that carry protocols, tree rewrites, parsers and
loops of their own, in Dafny, and proves what they are for. `dafny verify dfyconfig.toml` checks it.

Citations are `path:line` in the repository.

## What is modelled

**Asynchronous tasks.** `TaskTable` is the transition table and what one accepted update does.
`TaskRepository` is the in-memory repository, the submit/cancel service and the worker as classes and
methods on one heap. `TaskProtocol` interleaves them: any number of submit calls, cancel calls and
(re)delivered workers, one step at a time, each `update_status` atomic as the repository's lock makes
it. Its run theorems assume that no id is created twice (`Run.DistinctIds`). Where ids are reused through an
idempotency key, `TerminalChangesIff` says exactly what breaks and `ReusedIdRevives` shows a run.
`RedisTaskRepository` is the Redis repository, shown to answer every sequential history of calls as
the in-memory one does.

**Download once.** `DownloadOnce` interleaves threads of any number of processes that load embedding
or reranking models: memory cache, file lock, cache again, disk, load or download, and processes that
die at any point. The docstring at bible/infrastructure/vector/vector_tool.py:65 promises that only one process ever downloads a
given model. That is false for two spellings of one model: "x" and "sentence-transformers/x" share
a snapshot directory but lock different files. `AliasesDownloadTwice` builds such a run from any such
pair, and `DownloadOnceIff` with `AliasesIff` say exactly which sets of names are safe.

**Search requests.** `SearchQuery` is the abstract search and its form in the neutral, OpenSearch and
Elasticsearch dialects, with a reader for each. `QueryProfileCompiler` and `SkillProfileAdapter` compile
and adapt profiles. `SearchTranslators` says what the two backend translations make of any JSON tree,
and `TreeRewriters` are the writers' methods themselves, which edit a deep copy in place (`JsonTree`
holds dictionaries as heap objects) and leave the caller's tree alone. `TranslationKeepsMeaning` says for
every search what a reader of the translated request finds, and when that is the search.

**Command-line flags.** `InterspersedFlags` is the token reordering, against Go's stop-at-first-positional
parser. Reordering is right exactly under the condition of `ReorderCorrectIff`.

**Skill packages and SKILL.md.** `SkillPackage` packs, validates and installs; `Paths` is Go's lexical
path algebra and `FileTree` the disk; `SkillMarkdown` parses.

**Uploads, bulk writes and bindings.** `BulkUpsert` and `SearchBulk` are the chunked writes of the
Postgres and the search writers. `Bindings` is the index binding document and the get-or-create steps.
`ImportFiles` and `StoragePaths` follow an import's files from the manifest to the stored file and the
chunk's storage paths.

**Loops that wait or cut.** `Polling` holds the extension's poller, the command line's poller and the
upload retry; `WorkerPool` is the upload-all pool of goroutines and channels, under every schedule;
`ConversationBudget` cuts a conversation to a character budget.

## Where the code and its documentation differ

The model follows the code.

- bible/infrastructure/vector/vector_tool.py:65 promises one download per model; see `DownloadOnceIff`.
- bible/features/async_task/redis_repository.py:51 speaks of a Lua script; the code does a read and a
  write, so `ReplayBoth` covers sequential histories only.
- bible_vscode/src/core/lm/budget.ts:23 says the middle of a conversation is sampled evenly; the code
  keeps its longest affordable beginning. A single turn over the budget comes back twice; see `ReturnedOnceIff` and `SingleTurnTwice`.
- bible_cli_go/internal/client/http/memory.go:240 says network errors and 5xx are retried; the code also
  retries a file it cannot read, which has status 0.
- The empty-name error of the SKILL.md parser cannot be raised (`HeadingHasName`).
- bible_cli_go/internal/cli/interspersed_flags.go:12-14 promises that flags may follow positionals. A value flag
  without its value then takes a positional (`["name", "-o"]`, see `MissingValueTakesPositional`), and a flag-shaped
  positional behind "--" is read as a flag (`["--", "-x"]`, see `TerminatorIsDropped`).
- Adapting an adapted profile drops a hybrid weight that reads as zero (`AdaptTwiceIff`, `ZeroWeightIsLost`).
- The writers' translations know a kNN clause only by its keys, so a boost or weight that is an object can be taken for
  part of one (`TranslationKeepsMeaning`, `BoostTakenForBody`, `BoostTakenForClause`, `ClauseInVector`).
- bible/infrastructure/file_system/local.py:49-51 lets callers leave out the scope of a file; a gateway that stores files with and
  without a kb_index can then find a file where it needs a directory (`StoresStayLevel`, `MixedScopesClash`).
- Two files of one import whose names are sanitised alike share a path if stored on one day; the later one stays (`AllReadBackIff`, `TwinIsLost`).
- A skill import returns its own profile even where the stored one, of equal hash, is kept (`ReturnedIsStoredIff`, `CollisionKeepsOld`).

## Model

| member | source | states |
|---|---|---|
| `TaskRepository.AsyncTaskRepository.Create` | bible/features/async_task/repository.py:44-53 | Stores a new queued task object under the id; every other entry is unchanged. |
| `TaskRepository.AsyncTaskRepository.UpdateStatus` | bible/features/async_task/repository.py:59-95 | A missing id fails; an update the table forbids changes nothing; an accepted one changes the status, and result and error only where given. |
| `TaskRepository.AsyncTaskService.Submit` | bible/features/async_task/service.py:23-49 | Queues and publishes the task, or cancels the record and fails when the broker is down. |
| `TaskRepository.AsyncTaskService.Cancel` | bible/features/async_task/service.py:57-69 | Cancels a queued task and revokes it, only revokes a running one, and leaves a finished one. |
| `TaskRepository.DispatchTask` | bible/features/async_task/tasks/dispatch_task.py:37-70 | An unfinished task ends completed with what its handler returned, or failed with the timeout message, the domain error with its code and details, or the unexpected error; a finished one and every other task are left. |
| `TaskTable.WorkerRunAlone` | bible/features/async_task/tasks/dispatch_task.py:37-70 | Marking running and then finishing shows the outcome case by case on an unfinished task, and leaves a finished one and every other. |
| `TaskProtocol.UninterruptedWorker` | bible/features/async_task/tasks/dispatch_task.py:37-70 | Four steps of one worker in the interleaved model show the outcome on its task, case by case, and leave every other. |
| `TaskProtocol.CancelledDeliveryEnds` | bible/features/async_task/tasks/dispatch_task.py:41-47 | A worker that reads its task as cancelled ends and leaves the table alone. |
| `TaskProtocol.LateTimeoutEnds` | bible/features/async_task/tasks/dispatch_task.py:49-55 | A timeout that comes after the result was stored tries to fail the task, and the worker has ended. |
| `TaskProtocol.UninterruptedCancel` | bible/features/async_task/service.py:57-69 | The steps of one cancel cancel a queued task, and otherwise write nothing. |
| `TaskProtocol.UninterruptedSubmit` | bible/features/async_task/service.py:23-49 | The steps of one submit leave a queued and published task, or a cancelled one when publishing fails. |
| `TaskProtocol.AnyDelivery` | bible/features/async_task/tasks/dispatch_task.py:30-47 | A published task can be delivered to any new worker, which starts at its guard. |
| `TaskProtocol.TerminalChangesIff` | bible/features/async_task/repository.py:13-95 | For all ids, reused ones included: a finished record changes in a step exactly when its id is created again. |
| `TaskProtocol.ReusedIdRevives` | bible/features/async_task/service.py:31-32 | A run with a reused id in which a cancelled task is queued again. |
| `TaskProtocol.HistoryIsPath` | bible/features/async_task/repository.py:13-95 | In every run each status history is a path of the transition table, with at most two accepted updates. |
| `TaskProtocol.TerminalForever` | bible/features/async_task/repository.py:71-87 | In every run a finished record never changes again. |
| `TaskProtocol.RecordHoldsOneOutcome` | bible/features/async_task/tasks/dispatch_task.py:49-70 | In every run a completed record holds exactly what one earlier handler execution returned and no error, a failed one shows how one execution failed (timeout, domain error with code and details, or unexpected error), and any other record has neither. |
| `TaskProtocol.FirstFinishWins` | bible/features/async_task/tasks/dispatch_task.py:49-70 | Of several deliveries of a task that is not cancelled, the first to finish decides its record for good. |
| `TaskProtocol.WorkersFindTheirTask` | bible/features/async_task/tasks/dispatch_task.py:41-51 | No repository call of a worker meets a missing task. |
| `TaskProtocol.GuardAfterCancelSkips` | bible/features/async_task/tasks/dispatch_task.py:41-47 | A worker whose guard read comes after the cancel never calls the handler. |
| `TaskProtocol.HandlerOfCancelledTask` | bible/features/async_task/tasks/dispatch_task.py:41-51 | A handler runs for a task that is cancelled only if the cancel landed between that worker's guard read and its running update. |
| `TaskProtocol.CancelledWorkIsInert` | bible/features/async_task/tasks/dispatch_task.py:49-70 | No step of such a worker ever changes any record. |
| `RedisTaskRepository.TaskRoundTrip` | bible/features/async_task/redis_repository.py:21-44 | Reading back a serialised task gives the task, all fields and dates included. |
| `RedisTaskRepository.StoredObject` | bible/features/async_task/redis_repository.py:21-31 | The stored object has the eight keys, with the status spelled out. |
| `RedisTaskRepository.MissingReadsAsNone` | bible/features/async_task/redis_repository.py:34-44 | A missing or null payload reads as the empty one, a missing or null result or error as none. |
| `RedisTaskRepository.EditedTask` | bible/features/async_task/redis_repository.py:109-117 | Editing the stored dictionary is updating the task it stands for. |
| `RedisTaskRepository.KeyInjective` | bible/features/async_task/redis_repository.py:60-61 | Two ids never share a key. |
| `RedisTaskRepository.RedisAsyncTaskRepository.UpdateStatus` | bible/features/async_task/redis_repository.py:82-118 | On the view of the store it is the same update as the in-memory repository's. |
| `RedisTaskRepository.ReplayBoth` | bible/features/async_task/redis_repository.py:63-118 | For every sequential history, both repositories give the same status, result, error and payload after each call. |
| `ModelPaths.AliasesIff` | bible/infrastructure/vector/_model_utils.py:46-51 | Exactly the pairs of a bare name and its spelled-out form share a snapshot directory under different lock files. |
| `ModelPaths.BareNameHasAlias` | bible/infrastructure/vector/_model_utils.py:46-51 | Every bare name has such a partner. |
| `ModelPaths.PlacesOf` | bible/infrastructure/vector/_model_utils.py:46-51 | The snapshot directories and lock files of bare names and of names with an organisation. |
| `DownloadOnce.OneThreadPerModel` | bible/infrastructure/vector/vector_tool.py:76-100 | In every run at most one thread of any process is in the load or download section of a lock file. |
| `DownloadOnce.OneLoadPerProcess` | bible/infrastructure/vector/vector_tool.py:162-198 | Within a process at most one thread of a tool is ever fetching or constructing, whatever models they ask for. |
| `DownloadOnce.NormalReturnIsCached` | bible/infrastructure/vector/vector_tool.py:162-198 | A call that returned normally leaves its name in its process's cache. |
| `DownloadOnce.ThirdCheckAlwaysMisses` | bible/infrastructure/vector/vector_tool.py:162-170 | The innermost look into the cache, under both locks, never finds the name. |
| `DownloadOnce.CacheKept` | bible/infrastructure/vector/vector_tool.py:162-198 | A cached model stays, unchanged, as long as its process lives. |
| `DownloadOnce.InstalledOnce` | bible/infrastructure/vector/vector_tool.py:162-198 | A process installs at most one model object per tool and name. |
| `DownloadOnce.NoDownloadOnceOnDisk` | bible/infrastructure/vector/vector_tool.py:86-98 | Among names without aliases, no download is under way once a usable snapshot is on disk. |
| `DownloadOnce.DownloadedOnce` | bible/infrastructure/vector/rerank_tool.py:56-96 | Among names without aliases, at most one download per tool and directory succeeds, and none of the reranker after one of the embedding tool. |
| `DownloadOnce.DownloadOnceIff` | bible/infrastructure/vector/vector_tool.py:62-70 | All runs over a set of names download at most once exactly when no two of the names are aliases. |
| `DownloadOnce.AliasesDownloadTwice` | bible/infrastructure/vector/vector_tool.py:76-100 | For any two aliases, a run in which two processes download into the one directory. |
| `DownloadOnce.RerankThenVector` | bible/infrastructure/vector/rerank_tool.py:56-96 | For every name, a run in which the reranker's download is followed by the embedding tool's into the same directory. |
| `DownloadOnce.NoDeadlock` | bible/infrastructure/vector/vector_tool.py:71-100 | While a call has not returned, some thread can take a step. |
| `DownloadOnce.CachedCallReturns` | bible/infrastructure/vector/vector_tool.py:62-75 | A call that finds its name cached returns at once and changes nothing. |
| `DownloadOnce.ReachesImport` | bible/infrastructure/vector/vector_tool.py:76-98 | Any other call takes the file lock, looks again, and goes to the disk or to a download by what is there. |
| `DownloadOnce.WithoutLibrary` | bible/infrastructure/vector/vector_tool.py:162-198 | Without the library the name is cached as a fallback, the lock is let go and the call says so. |
| `DownloadOnce.LocalLoad` | bible/infrastructure/vector/vector_tool.py:162-198 | A local model is cached if it builds, and otherwise the call raises; both locks are let go. |
| `DownloadOnce.DownloadedLoad` | bible/infrastructure/vector/vector_tool.py:162-198 | A download leaves its files on disk; if it and the build succeed the model is cached, else the call raises; both locks are let go. |
| `DownloadOnce.LockedOut` | bible/infrastructure/vector/vector_tool.py:71-82 | No thread looks into or changes a tool's cache while another one of its process holds the lock, and a held file lock is not taken. |
| `DownloadOnce.CrashDrops` | bible/infrastructure/vector/vector_tool.py:76-100 | A process that dies takes its calls, locks and cache with it, and nothing of any other. |
| `InterspersedFlags.ReorderInterspersedFlags` | bible_cli_go/internal/cli/interspersed_flags.go:19-42 | The loop returns the flags with their values, then the positionals, each in order. |
| `InterspersedFlags.ReorderCorrectIff` | bible_cli_go/internal/cli/interspersed_flags.go:12-42 | Go's parser on the reordered tokens does what a left-to-right interspersed parser does on the original, bindings, error and positionals alike, exactly when the flags are rejected anyway, or no value-taking flag is left without its value before positionals and the first positional is not flag-shaped. |
| `InterspersedFlags.MissingValueTakesPositional` | bible_cli_go/internal/cli/interspersed_flags.go:12-42 | After the name and a value flag without its value, Go binds the flag to the name and loses the positional, where the user should see that the flag needs an argument. |
| `InterspersedFlags.TerminatorIsDropped` | bible_cli_go/internal/cli/interspersed_flags.go:23-42 | A flag-shaped positional behind "--" is rejected as an undefined flag. |
| `InterspersedFlags.PositionalsArePlain` | bible_cli_go/internal/cli/interspersed_flags.go:23-39 | Without a terminator no collected positional is flag-shaped. |
| `InterspersedFlags.TokensKept` | bible_cli_go/internal/cli/interspersed_flags.go:19-42 | No token is lost, added or duplicated, but for the one terminator. |
| `InterspersedFlags.SameName` | bible_cli_go/internal/cli/interspersed_flags.go:63-69 | On tokens Go can read, the reordering sees the flag name Go sees. |
| `InterspersedFlags.GoReads` | bible_cli_go/internal/cli/interspersed_flags.go:12-42 | How Go reads a flag with one dash or two, a value behind "=", behind the token, or "true". |
| `SearchQuery.FormBack` | bible/features/search/common/query_profile_compiler.py:125-309 | Reading the form of any query gives back what its dialect holds of it, whatever the fields are called. |
| `SearchQuery.RequestBack` | bible/features/search/common/query_profile_compiler.py:125-309 | Reading a whole request gives the search back, but for the width OpenSearch keeps in the index and the neighbours Elasticsearch counts as hits. |
| `SearchQuery.KeptIff` | bible/features/search/common/query_profile_compiler.py:125-309 | The neutral form holds every query whole, the Elasticsearch form exactly those whose kNN parts ask for as many neighbours as hits, as compiled ones do. |
| `SearchTranslators.StripRemovesExactly` | bible/infrastructure/database/opensearch/writer.py:680-690 | On any JSON tree the translation removes exactly the candidate counts of kNN bodies and keeps every other path. |
| `SearchTranslators.StripIdempotent` | bible/infrastructure/database/opensearch/writer.py:680-690 | Translating twice is translating once, on any tree. |
| `SearchTranslators.StripKeepsIff` | bible/infrastructure/database/opensearch/writer.py:680-690 | The translation leaves a tree alone exactly when no kNN body in it has a candidate count. |
| `SearchTranslators.TranslatedForm` | bible/infrastructure/database/elasticsearch/writer.py:598-643 | For any query, translating its neutral form for either backend gives that backend's form of the query with its boosts translated. |
| `SearchTranslators.OpenSearchRequestIff` | bible/infrastructure/database/opensearch/writer.py:669-690 | Translating a neutral request gives the OpenSearch request exactly when no boost or weight has a candidate count where the walk looks for a body; translating twice is translating once in any case. |
| `SearchTranslators.BoostTakenForBody` | bible/infrastructure/database/opensearch/writer.py:680-690 | With an object boost under a field called "knn", what OpenSearch is sent does not read as the search that was meant. |
| `SearchTranslators.RewriteKeepsIff` | bible/infrastructure/database/elasticsearch/writer.py:598-617 | The rewrite leaves a tree alone exactly when it holds no convertible clause. |
| `SearchTranslators.ConvertKnnIs` | bible/infrastructure/database/elasticsearch/writer.py:620-643 | A clause with one body is converted exactly when the body is an object with a vector that is not null; what is copied is said key by key. |
| `SearchTranslators.TopFaults` | bible/infrastructure/database/elasticsearch/writer.py:598-643 | Which exception a sole top-level clause that is no object raises, or that it is left alone. |
| `SearchTranslators.RewriteTwiceIff` | bible/infrastructure/database/elasticsearch/writer.py:598-617 | On any tree, rewriting twice is rewriting once exactly when no clause hides in a copied vector or count. |
| `SearchTranslators.ClauseInVector` | bible/infrastructure/database/elasticsearch/writer.py:598-617 | A clause whose vector is a clause, which a second rewriting changes again. |
| `SearchTranslators.ElasticsearchRequestIff` | bible/infrastructure/database/elasticsearch/writer.py:592-643 | Translating a neutral request gives the Elasticsearch request, a sole clause moved to the top, exactly when no boost or weight holds a convertible clause. |
| `SearchTranslators.ElasticsearchTwiceIff` | bible/infrastructure/database/elasticsearch/writer.py:592-643 | Translating an Elasticsearch request again changes nothing, exactly when no boost or weight holds a convertible clause. |
| `SearchTranslators.NeutralTwiceIff` | bible/infrastructure/database/elasticsearch/writer.py:592-643 | Translating a neutral request twice is translating it once, exactly when no boost or weight hides a clause in a clause. |
| `SearchTranslators.BoostTakenForClause` | bible/infrastructure/database/elasticsearch/writer.py:598-643 | With a boost that is itself a clause, what Elasticsearch is sent does not read as the search that was meant, and a second translation changes it again. |
| `SearchTranslators.TranslationKeepsMeaning` | bible/infrastructure/database/elasticsearch/writer.py:592-643 | Reading what either writer sends gives the search with its boosts translated; so it gives the search back (size, fields, boosts, vector, neighbours, weights) exactly when no boost or weight is in that writer's way and, in Elasticsearch, a kNN part that is not the whole query asks for as many neighbours as hits. |
| `JsonTree.DeepCopy` | bible/infrastructure/database/opensearch/writer.py:676 | The copy is a tree of new objects that reads the same. |
| `TreeRewriters.StripNumCandidatesFromKnn` | bible/infrastructure/database/opensearch/writer.py:680-690 | The walk that pops keys in place leaves the tree reading as its stripping, writing only to objects of the tree. |
| `TreeRewriters.PopBodies` | bible/infrastructure/database/opensearch/writer.py:683-686 | After the inner loop every body of the clause, and nothing else, has lost its count. |
| `TreeRewriters.PoppedThenStripped` | bible/infrastructure/database/opensearch/writer.py:682-687 | Popping from the bodies first and walking on into them is stripping the clause. |
| `TreeRewriters.PrepareOpenSearchDsl` | bible/infrastructure/database/opensearch/writer.py:669-678 | The result is a stripped tree of new objects; the caller's tree still reads as before. |
| `TreeRewriters.ConvertKnnClause` | bible/infrastructure/database/elasticsearch/writer.py:620-643 | Builds the converted clause as a new object over the shared vector, exactly where the clause is convertible. |
| `TreeRewriters.RewriteKnnClauses` | bible/infrastructure/database/elasticsearch/writer.py:598-617 | The in-place rewrite leaves the tree reading as its rewriting, and still a tree. |
| `TreeRewriters.RewriteTopLevel` | bible/infrastructure/database/elasticsearch/writer.py:598-617 | A query that is just one clause moves up to the top; a clause that is no dictionary raises as in Python. |
| `TreeRewriters.PrepareElasticsearchDsl` | bible/infrastructure/database/elasticsearch/writer.py:592-596 | The result is a rewritten tree of new objects, or the exception; the caller's tree still reads as before. |
| `QueryProfileCompiler.ValidateFieldEntries` | bible/features/search/common/query_profile_compiler.py:449-466 | Accepts exactly the non-empty lists of well-formed entries. |
| `QueryProfileCompiler.ExtractResponseFields` | bible/features/search/common/query_profile_compiler.py:369-382 | The response fields in order without the score, or the error. |
| `QueryProfileCompiler.WithoutScoreHas` | bible/features/search/common/query_profile_compiler.py:369-382 | Exactly the named fields other than the score stay. |
| `QueryProfileCompiler.SourceFieldsAre` | bible/features/search/common/query_profile_compiler.py:369-382 | No filter without response fields, their texts but the score with them, and an error for anything else. |
| `Json.Falsy` | bible/features/search/common/query_profile_compiler.py:332-360 | The values that count as false: null, false, zero and what is empty. |
| `QueryProfileCompiler.NumbersAre` | bible/features/search/common/query_profile_compiler.py:229-309 | What arithmetic makes of integers, floats and booleans, and of nothing else. |
| `QueryProfileCompiler.Compile` | bible/features/search/common/query_profile_compiler.py:53-123 | The entry compiled is the one the wrapper, the group or the legacy profile itself gives for the search type (`Gives`); the request reads as the search that entry means, with the response fields; unknown keys, missing and disabled entries are refused by name (`Refuses`). |
| `QueryProfileCompiler.GivesIff` | bible/features/search/common/query_profile_compiler.py:315-366 | The entry taken is well shaped and enabled, in the wrapper, in its group or the legacy profile itself; each direction. |
| `QueryProfileCompiler.CompilesIff` | bible/features/search/common/query_profile_compiler.py:125-309 | An entry that names its fields compiles exactly when it has fields (keyword, title, text), or a vector field and a query vector (vector, hybrid) and, for hybrid, a weight that is a number. |
| `QueryProfileCompiler.CompiledTypeMeans` | bible/features/search/common/query_profile_compiler.py:125-309 | Each search type compiles to the neutral form of the query its entry means, with size the requested number of hits. |
| `QueryProfileCompiler.CompileThenTranslate` | bible/features/search/common/query_profile_compiler.py:53-309 | Compiling and translating for either backend keeps the search the profile asks for, with size and neighbours equal to the number of hits, exactly when no boost that is an object or a list is in the way; text, boolean and null boosts never are. |
| `QueryProfileCompiler.RoundsToEven` | bible/features/search/common/query_profile_compiler.py:229-309 | Rounding goes to the nearest, and from the middle to the even neighbour. |
| `QueryProfileCompiler.ArmWeightsSumToOne` | bible/features/search/common/query_profile_compiler.py:229-309 | The two hybrid arms weigh one in all, to within half a unit of the sixth decimal. |
| `SkillProfileAdapter.RenderedBoostParsesIff` | bible/features/search/skill_search/searcher/search_skill.py:63-77 | For a weight whose text reads back as itself, parsing the rendered field and weight gives the pair back exactly when the field has no caret. |
| `SkillProfileAdapter.SpellsIff` | bible/features/search/skill_search/searcher/search_skill.py:63-77 | A field text is parsed to the field and 1 without a caret, and to the field and the number behind the caret with one, where an unreadable number is 1. |
| `SkillProfileAdapter.AdaptSkillProfile` | bible/features/search/skill_search/searcher/search_skill.py:80-181 | The key-by-key adaptation gives the adapted profile its specification describes, or the crash; a text is walked character by character and a dictionary key by key, as a list is. |
| `SkillProfileAdapter.AdaptFailsIff` | bible/features/search/skill_search/searcher/search_skill.py:80-181 | The adaptation raises exactly on fields that cannot be walked, a hybrid weight that is no number, or a vector section that is no dictionary and is needed. |
| `SkillProfileAdapter.SpecsAre` | bible/features/search/skill_search/searcher/search_skill.py:108-150 | The field texts are a list of texts, the characters of a text or the keys of a dictionary. |
| `SkillProfileAdapter.AdaptedHolds` | bible/features/search/skill_search/searcher/search_skill.py:108-181 | The adapted profile has title search always, the other sections exactly where the profile has them, and the response fields. |
| `SkillProfileAdapter.OtherSectionsKept` | bible/features/search/skill_search/searcher/search_skill.py:108-150 | Sections without field texts are passed on, the match kind too; title search defaults to the name with weight 1. |
| `SkillProfileAdapter.VectorSection` | bible/features/search/skill_search/searcher/search_skill.py:152-163 | The vector field, by default content_vector, and the search width, and no other key. |
| `SkillProfileAdapter.HybridSection` | bible/features/search/skill_search/searcher/search_skill.py:165-181 | The weight under either name as a number, the own vector field or the vector section's or the default, and four keys as they are. |
| `SkillProfileAdapter.AdaptTwiceIff` | bible/features/search/skill_search/searcher/search_skill.py:80-181 | Adapting an adapted profile changes nothing exactly when the profile was wrapped already or its hybrid section, if any, gives no weight of zero. |
| `SkillProfileAdapter.ZeroWeightIsLost` | bible/features/search/skill_search/searcher/search_skill.py:140-181 | A profile with an older hybrid weight of zero, which the second adaptation drops. |
| `SkillProfileAdapter.AdaptThenCompile` | bible/features/search/skill_search/searcher/search_skill.py:80-181 | Every flat skill profile adapts to one that compiles for each search type it contains, given a query vector, to the search read straight off the field texts. |
| `SkillProfileAdapter.SkillBoosts` | bible/features/search/skill_search/searcher/search_skill.py:63-128 | Keyword and title search are one term or match clause for each field text, in order, with the field and boost it spells out; text search asks for texts that spell out the same, where the weights' texts read back as themselves. |
| `SkillProfileAdapter.AdaptedSearchReaches` | bible/features/search/skill_search/searcher/search_skill.py:80-181 | From the flat profile to what either backend is sent: reading it gives back the search the profile asks for. |
| `Paths.SplitJoin` | bible/infrastructure/file_system/_utils.py:54-55 | Splitting joined names gives the names back. |
| `Paths.CleanRules` | bible_cli_go/internal/commands/skills.go:318-363 | Cleaning drops "" and ".", keeps names, and ".." takes back the name before it or goes at the root. |
| `Paths.WithinIff` | bible_cli_go/internal/commands/skills.go:510-517 | The lexical check holds of exactly the cleaned paths at or below the root. |
| `SkillPackage.ValidateSkillPackageEntries` | bible_cli_go/internal/commands/skills.go:318-363 | Accepts with the one top directory or fails with the first entry's error, the wrong number of top directories or the missing manifest, in that order. |
| `SkillPackage.AcceptedIff` | bible_cli_go/internal/commands/skills.go:318-363 | A package is accepted exactly when its named entries are one directory with a proper name or lie below it without being links, and a SKILL.md file is right below it. |
| `SkillPackage.EntryFaults` | bible_cli_go/internal/commands/skills.go:318-363 | Which error each kind of bad entry gives. |
| `SkillPackage.AcceptedTopDir` | bible_cli_go/internal/commands/skills.go:318-363 | An accepted package has a proper top name and every entry is it or below it, element by element. |
| `SkillPackage.TargetsStayInside` | bible_cli_go/internal/commands/skills.go:468-508 | Every target lies at or below the destination's top directory, so the within-directory check never fires. |
| `SkillPackage.InstallSkillPackage` | bible_cli_go/internal/commands/skills.go:468-508 | A refused package leaves the disk alone; an accepted one installs entry by entry up to the first failure. |
| `SkillPackage.EntryInstalled` | bible_cli_go/internal/commands/skills.go:468-508 | One entry makes its directories and writes its file, or fails without writing where something is in the way. |
| `SkillPackage.InstallIsConfined` | bible_cli_go/internal/commands/skills.go:468-508 | Even a failing installation touches nothing outside the top directory and the directories above it. |
| `SkillPackage.WriteSkillZip` | bible_cli_go/internal/commands/skills.go:240-290 | Packs every file of the walk in order under the top name, or refuses a symbolic link. |
| `SkillPackage.PackedIsAcceptedIff` | bible_cli_go/internal/commands/skills.go:201-290 | Of the base names a directory can have, exactly the proper ones give packages that validate, whatever directories the walk meets. |
| `SkillPackage.PackInstallRoundTrip` | bible_cli_go/internal/commands/skills.go:240-508 | Packing what a walk of a tree with a SKILL.md meets, directories included, and installing it reproduces every file at its place and changes no other file. |
| `SkillMarkdown.FindParagraph` | bible/features/upload/skill_upload/parsers/skill_parser/skills_md_parser.py:49-68 | Both nested scans end, at the first run of text lines. |
| `SkillMarkdown.ParseStandardSkillsMd` | bible/features/upload/skill_upload/parsers/skill_parser/skills_md_parser.py:5-86 | The index-moving loops compute the declarative parse, errors included. |
| `SkillMarkdown.ParsedShape` | bible/features/upload/skill_upload/parsers/skill_parser/skills_md_parser.py:26-86 | The first line that is a heading names the skill, the first run of text lines after it, joined by blanks, describes it, and what is behind the run is the body. |
| `SkillMarkdown.PreambleIsSkipped` | bible/features/upload/skill_upload/parsers/skill_parser/skills_md_parser.py:26-47 | Whatever lines without a heading come before a canonical rendering, the parse is that triple. |
| `SkillMarkdown.NoHeadingIff` | bible/features/upload/skill_upload/parsers/skill_parser/skills_md_parser.py:26-40 | A missing heading is reported exactly for texts that are not blank and have no heading line, an empty file exactly for blank ones. |
| `SkillMarkdown.LineEndsUnified` | bible/features/upload/skill_upload/parsers/skill_parser/skills_md_parser.py:22-26 | Reading in text mode makes every line end a newline and keeps the rest. |
| `SkillMarkdown.StripExact` | bible/features/upload/skill_upload/parsers/skill_parser/skills_md_parser.py:26-47 | Stripping takes exactly the blanks off both ends. |
| `SkillMarkdown.BlanksAre` | bible/features/upload/skill_upload/parsers/skill_parser/skills_md_parser.py:26-28 | The blanks and line breaks, one by one. |
| `SkillMarkdown.HeadingHasName` | bible/features/upload/skill_upload/parsers/skill_parser/skills_md_parser.py:28-47 | A heading always has text behind its mark, so the empty-name error is never raised. |
| `SkillMarkdown.PrintParse` | bible/features/upload/skill_upload/parsers/skill_parser/skills_md_parser.py:26-86 | Parsing the rendering of a canonical triple gives exactly that triple. |
| `SkillMarkdown.ParsePrintParse` | bible/features/upload/skill_upload/parsers/skill_parser/skills_md_parser.py:26-86 | For every accepted text, printing the parse and parsing again gives the same triple. |
| `SkillMarkdown.ReturnedIff` | bible/features/upload/skill_upload/parsers/skill_parser/skills_md_parser.py:26-86 | Some text parses to a triple exactly when the triple is canonical. |
| `BulkUpsert.RowIdIsFirst` | bible/infrastructure/database/postgres/writer.py:481-489 | The row id is the first of the fields' texts that is not blank, stripped; there is none exactly when all are blank. |
| `BulkUpsert.ChunksConcatenate` | bible/infrastructure/database/postgres/writer.py:517-519 | The chunks put together are the records, none is empty and all but the last are full. |
| `BulkUpsert.PostgresWriter.BulkUpsertJsonRecords` | bible/infrastructure/database/postgres/writer.py:420-479 | The table ends as if the records of the committed batches had been upserted one at a time, and every record is counted once. |
| `BulkUpsert.ChunkSizeIsInvisible` | bible/infrastructure/database/postgres/writer.py:447-479 | When every batch commits, the upserted records are all records, whatever the chunk size. |
| `BulkUpsert.CommittedPieces` | bible/infrastructure/database/postgres/writer.py:447-479 | A batch's records count exactly when its own transaction commits. |
| `BulkUpsert.LastRecordWins` | bible/infrastructure/database/postgres/writer.py:437-470 | A row ends with the last record that has its id, without the id key. |
| `BulkUpsert.OtherRowsKept` | bible/infrastructure/database/postgres/writer.py:437-470 | Rows of other indexes, and of ids no record has, are untouched. |
| `SearchBulk.SearchWriter.Bulk` | bible/infrastructure/database/opensearch/writer.py:485-554 | Whatever the chunk size, a normal return leaves the index as if each document had been sent by itself, every document counted once; a transport error leaves exactly the chunks before it and the part of its chunk that got there. |
| `SearchBulk.ActionsAreTheChunk` | bible/infrastructure/database/opensearch/writer.py:499-521 | Leaving out documents without an id loses nothing else. |
| `SearchBulk.DocIdIs` | bible/infrastructure/database/opensearch/writer.py:500-505 | The id is the stripped text of the first of the three keys that is not falsy. |
| `SearchBulk.LastTaken` | bible/infrastructure/database/opensearch/writer.py:513-521 | A document is left as the last request for its id made it: merged into what was there, or as it is, without its "_id". |
| `Bindings.OpenSearchWriter.CreateIndexBinding` | bible/infrastructure/database/opensearch/writer.py:115-167 | Refuses an incomplete document and creates only; a document already there, deactivated or not, is a conflict. |
| `Bindings.OpenSearchWriter.UpdateBinding` | bible/infrastructure/database/opensearch/writer.py:249-288 | Changes just the patched fields of one document, or fails when there is none. |
| `Bindings.SkillStorage.GetOrCreateBinding` | bible/features/upload/skill_upload/storage/store_skill.py:346-418 | Leaves the document the import asks for, patching only what differs, and returns it with the import's own profile. |
| `Bindings.MemoryStorage.GetOrCreateBinding` | bible/features/upload/memory_upload/storage/store_memory.py:354-421 | Creates, fills in a missing model, or leaves the document, and returns exactly what is stored. |
| `Bindings.RunKeepsWellFormed` | bible/features/upload/skill_upload/storage/store_skill.py:346-418 | Over every sequence of imports and deactivations the stored profile hash is the hash of the stored profile. |
| `Bindings.EventLeaves` | bible/features/upload/skill_upload/storage/store_skill.py:346-418 | What each import and deactivation leaves of the document under its id, field by field, and of every other document. |
| `Bindings.ReturnedIsStoredIff` | bible/features/upload/skill_upload/storage/store_skill.py:363-391 | The returned skill binding is the stored one exactly when the old and the new profile are not two texts of one hash. |
| `Bindings.CollisionKeepsOld` | bible/features/upload/skill_upload/storage/store_skill.py:363-391 | Of two imports whose profiles are two texts of one hash, the first one's text stays stored. |
| `Bindings.SkillLastImportWins` | bible/features/upload/skill_upload/storage/store_skill.py:346-418 | Over every sequence, the last import of an index that is never deactivated decides model, parser and profile hash. |
| `Bindings.MemoryFirstImportWins` | bible/features/upload/memory_upload/storage/store_memory.py:354-421 | Over every sequence, parser, profile and tag stay the first import's and the model is the first one given. |
| `Bindings.DeactivatedStays` | bible/infrastructure/database/opensearch/writer.py:169-202 | No sequence of imports changes a deactivated binding. |
| `StoragePaths.SafeAre` | bible/infrastructure/file_system/_utils.py:7-20 | The characters a segment may have and the ones taken off its ends, by their codes. |
| `StoragePaths.SubRunsOf` | bible/infrastructure/file_system/_utils.py:11-19 | Each run of other characters becomes one underscore, and safe text stays. |
| `StoragePaths.SegmentShape` | bible/infrastructure/file_system/_utils.py:14-20 | A sanitised segment is the fallback or a safe proper name, and safe segments are left alone. |
| `StoragePaths.SegmentIs` | bible/infrastructure/file_system/_utils.py:14-20 | A segment is the stripped text with runs made underscores and marks taken off both ends, or the fallback where nothing is left. |
| `StoragePaths.SegmentTwiceIff` | bible/infrastructure/file_system/_utils.py:14-20 | A second sanitising changes nothing exactly when the first had something to keep, or the fallback is a text that cleaning empties or leaves alone. |
| `StoragePaths.FallbackChanges` | bible/infrastructure/file_system/_utils.py:14-20 | A fallback with a leading mark comes back as it is the first time and changed the second. |
| `StoragePaths.FilenameShape` | bible/infrastructure/file_system/_utils.py:23-31 | A sanitised file name is one safe proper name, sanitising it again changes nothing, and such names are the only ones left alone. |
| `StoragePaths.FilenameIs` | bible/infrastructure/file_system/_utils.py:23-31 | The name is that of the last element of the path, stripped, with runs made underscores, or unnamed.bin. |
| `StoragePaths.FilenameDefaults` | bible/infrastructure/file_system/_utils.py:23-31 | Empty names and trailing slashes and dots. |
| `StoragePaths.StoragePathSplits` | bible/infrastructure/file_system/_utils.py:34-55 | Splitting a built path gives back its elements, all of them proper names. |
| `StoragePaths.StoragePartsAre` | bible/infrastructure/file_system/_utils.py:34-55 | Domain, index, date, task and file in this order, absent ones left out. |
| `StoragePaths.OwnPathResolves` | bible/infrastructure/file_system/local.py:44-66 | The gateway's own path always resolves, to the same elements below its root. |
| `StoragePaths.ResolvedIsUnder` | bible/infrastructure/file_system/local.py:166-181 | An absolute path and one that leads out of the root are refused; what resolves is at or below the root. |
| `StoragePaths.LocalFileSystemGateway.Store` | bible/infrastructure/file_system/local.py:36-135 | The whole stream, read chunk by chunk, and nothing else is then at the resolved path, with its size; a file or directory in the way fails and leaves every file alone. |
| `StoragePaths.PlacedIff` | bible/infrastructure/file_system/local.py:59-100 | A store goes through exactly when no file is in the place of a directory it needs and no directory in its own. |
| `StoragePaths.StoresStayLevel` | bible/infrastructure/file_system/local.py:44-66 | Among files all stored with a kb_index, or all without one, no store finds anything in its way. |
| `StoragePaths.MixedScopesClash` | bible/infrastructure/file_system/local.py:44-66 | With both kinds a store can fail: a file stored without a kb_index takes the place of a directory. |
| `StoragePaths.SamePathIff` | bible/infrastructure/file_system/local.py:44-64 | Two files of one task, each with its own date, share a path exactly when they have one date and their sanitised names are equal. |
| `ImportFiles.LoadManifest` | bible/features/upload/memory_upload/parsers/memory_parser/manifest_loader.py:9-38 | Accepts exactly the non-empty lists of complete entries with distinct refs and readable sizes, else names the first bad entry and why. |
| `ImportFiles.IsMetaIff` | bible/features/upload/memory_upload/parsers/memory_parser/file_classifier.py:6-23 | The meta file is the one called meta.json, in whatever case. |
| `ImportFiles.AttachmentsAreTheRest` | bible/features/upload/memory_upload/parsers/memory_parser/file_classifier.py:6-23 | With distinct refs the attachments are exactly the files other than the one meta.json, in order. |
| `ImportFiles.SaveFilesByPlan` | bible/features/upload/memory_upload/storage/store_memory.py:287-327 | One result and one stored file for each planned file that is there, up to the first store that fails. |
| `ImportFiles.PlanNeverClashes` | bible/features/upload/memory_upload/storage/store_memory.py:287-327 | On a disk whose files were all stored with a kb_index, or all without, every plan of that kind is stored whole. |
| `ImportFiles.HydrateChunk` | bible/features/upload/memory_upload/storage/store_memory.py:329-352 | The storage paths of the refs that were stored, in the order of the refs. |
| `ImportFiles.HydratedPaths` | bible/features/upload/memory_upload/storage/store_memory.py:287-352 | The chunk's storage paths are those of the attachments that were there, in manifest order, and there are as many results. |
| `ImportFiles.ImportMemoryFiles` | bible/features/upload/memory_upload/parsers/memory_parser/orchestrator.py:14-33 | From manifest to hydrated chunk, with the number of stored files, exactly for an accepted manifest with one accepted meta.json; nothing is stored otherwise. |
| `ImportFiles.ReadsBackIff` | bible/infrastructure/file_system/local.py:44-98 | A stored file reads back as itself exactly when the last one of its day and sanitised name has its contents. |
| `ImportFiles.AllReadBackIff` | bible/infrastructure/file_system/local.py:44-98 | Every staged file of a plan reads back as itself exactly when staged files of one day and sanitised name have equal contents. |
| `ImportFiles.TwinIsLost` | bible/infrastructure/file_system/local.py:44-98 | Of two attachments called alike and stored on one day the first does not read back. |
| `Polling.TaskTracker.PollUntilTerminal` | bible_vscode/src/core/task/task-tracker.ts:174-230 | Stops at the one round the inputs decide, returns its outcome and has stored the answered records in order. |
| `Polling.BackOffStep` | bible_vscode/src/core/task/task-tracker.ts:211-215 | Doubling below the ceiling from the third silence on is a power of two cut at the ceiling. |
| `Polling.BackOffBetween` | bible_vscode/src/core/task/task-tracker.ts:174-216 | Every back-off lies between the smaller and the larger of the interval and 5000. |
| `Polling.PollsBounded` | bible_vscode/src/core/task/task-tracker.ts:174-230 | At most one poll for each shortest round in the maximum wait, and one more, an interval of zero included. |
| `Polling.TerminalOrTimedOut` | bible_vscode/src/core/task/task-tracker.ts:181-190 | What is returned is terminal unless the maximum wait was exceeded, and the stopping round is unique. |
| `Polling.EarlierRounds` | bible_vscode/src/core/task/task-tracker.ts:181-190 | Every earlier round found the task unfinished, not cancelled and in time. |
| `Polling.LastStoredIsCurrent` | bible_vscode/src/core/task/task-tracker.ts:199-210 | The record last written while polling is the one the poller holds. |
| `Polling.PollTask` | bible_cli_go/internal/client/http/memory.go:204-227 | Returns a terminal payload, the first error or a timeout after at most timeout/interval + 2 polls, an interval of zero counting as one. |
| `Polling.PostMultipartImport` | bible_cli_go/internal/client/http/memory.go:343-360 | The answer is that of the first attempt not to be retried or of the fourth, after at most 21 seconds of sleep. |
| `WorkerPool.StepConserves` | bible_cli_go/internal/commands/memory.go:497-531 | Every step of any schedule keeps each directory in exactly as many places as before. |
| `WorkerPool.SendsNeverBlock` | bible_cli_go/internal/commands/memory.go:497-531 | At any moment of any run a worker with a report, and the feeder with a directory, find room in the channel. |
| `WorkerPool.NeverStuck` | bible_cli_go/internal/commands/memory.go:497-531 | Until the pool has joined some step can be taken. |
| `WorkerPool.RunLength` | bible_cli_go/internal/commands/memory.go:497-531 | Every run ends, after exactly 4 steps for each directory, one for each worker and 2. |
| `WorkerPool.EachUploadedOnce` | bible_cli_go/internal/commands/memory.go:497-531 | When the pool has joined, each directory was begun once and has one report. |
| `WorkerPool.Collect` | bible_cli_go/internal/commands/memory.go:533-561 | Uploaded, skipped and failed add up to the reports, each listed once with its status. |
| `WorkerPool.UploadAll` | bible_cli_go/internal/commands/memory.go:497-561 | When the pool has joined, uploaded, skipped and failed add up to the directories and the summary lists each directory once. |
| `ConversationBudget.WithinCapIff` | bible_vscode/src/core/lm/budget.ts:60-63 | A clipped turn is within the cap exactly when it was before or the cap has room for the mark. |
| `ConversationBudget.ClipKeepsBeginning` | bible_vscode/src/core/lm/budget.ts:60-63 | Clipping keeps the beginning and the role, marks the cut and does nothing the second time. |
| `ConversationBudget.SmallCapClips` | bible_vscode/src/core/lm/budget.ts:60-63 | A cap below the mark's 13 places counts the missing ones from the end of the text. |
| `ConversationBudget.ClipKeepsPairsIff` | bible_vscode/src/core/lm/budget.ts:60-63 | Clipping well-formed UTF-16 leaves half a character exactly when the cut falls between the halves of a surrogate pair. |
| `ConversationBudget.ApplyConvBudget` | bible_vscode/src/core/lm/budget.ts:25-58 | Everything clipped when it fits, else the first turn, the longest affordable beginning of the middle and the last turn. |
| `ConversationBudget.TotalWithinBudget` | bible_vscode/src/core/lm/budget.ts:39-57 | The reported total is what is returned and stays in the budget unless the two ends alone exceed it. |
| `ConversationBudget.TurnsWithinCap` | bible_vscode/src/core/lm/budget.ts:28-29 | Every returned turn is within the cap, when the cap has room for the mark. |
| `ConversationBudget.UntruncatedIsInput` | bible_vscode/src/core/lm/budget.ts:31-35 | An unmarked result is the input; the mark is set exactly when a turn was clipped or the budget was exceeded. |
| `ConversationBudget.ReturnedOnceIff` | bible_vscode/src/core/lm/budget.ts:37-57 | The returned turns are clipped turns of the conversation in their order, none twice, exactly when it is not a single turn over the budget. |
| `ConversationBudget.SingleTurnTwice` | bible_vscode/src/core/lm/budget.ts:37-57 | A conversation of one turn over the budget, which comes back twice. |
| `ConversationBudget.NoLongerFit` | bible_vscode/src/core/lm/budget.ts:45-50 | No longer beginning of the middle fits. |

## Left out

- Routes, request models, wiring, loggers, configuration loading, HTTP transport and multipart encoding: plumbing.
- The extension's interface, notifications and emitters: only the poll loop and the budget are modelled.
- Celery, Redis, OpenSearch, Elasticsearch, Postgres and sentence-transformers themselves: each is an assumed step (an upsert, a batch that commits or rolls back, a download that leaves a snapshot or fails). Revoking a delivery constrains nothing.
- Atomicity of one `update_status` and of one locked cache access: taken from the locks in the code; what `TaskProtocol`, `DownloadOnce` and `WorkerPool` interleave are such steps, as state machines and not as methods.
- Clock fields of in-memory records and bindings, and expiry of Redis keys.
- Interleaved Redis updates: the code reads and then writes, so the run theorems of `TaskProtocol` are about the locked in-memory repository.
- `list_by_type`, tracker cancellation and its list of active tasks: finite filters.
- JSON texts and ISO dates: serialising is taken to be exact, and `str()` and `float()` are functions given by the caller.
- Deleting snapshots from disk, and caches in different directories: one cache directory is shared and only grows.
- Real zip compression, file permissions, symbolic links on the installing side and files that are neither regular nor directories.
- SHA-256: a function that may collide.
- Lists that are assigned to: no rewriter does, so lists are values in `JsonTree`.
- Go's special error for an undefined help flag: it counts as an undefined flag.
- The width of an OpenSearch search, which is a setting of the index and not of the request.
- Fields of the content chunk other than its file references and storage paths.
- QueryProfileCompiler.CompileThenTranslate: of entries that name their fields by texts and give the match kind, if any, as a text (`WellTyped`); for others `Compile` promises its specification, exceptions included.
- QueryProfileCompiler.Compile: an entry whose field name is no text raises; the source also compiles a number, which becomes an integer key that no JSON object can have.
- SkillProfileAdapter.AdaptThenCompile: of profiles whose field lists hold texts and whose match kind, if any, is a text.
- SkillPackage.PackInstallRoundTrip: nothing may be in the way on disk (no file where a directory is needed, or the reverse); otherwise installing fails half way, which `InstallIsConfined` bounds.
- RedisTaskRepository.ReplayBoth: sequential histories without expiry.
- Polling.PollsBounded: there is a wait between polls or every round takes time; a clock that stands still with an interval of zero polls for ever.
- SearchBulk.SearchWriter.Bulk: the client helper's report is taken at its word, so a document it reports as failed has not reached the index.
- ImportFiles.ImportMemoryFiles: what makes a meta.json acceptable is given by the caller (`parses`), and the chunk holds only file references and storage paths.
- TreeRewriters.PrepareOpenSearchDsl: the request is a tree, as one compiled from a profile read from JSON text is; one dictionary object in two places of it is not modelled.
- TreeRewriters.PrepareElasticsearchDsl: the request is a tree, likewise.
- JsonTree.DeepCopy: copies trees; what the copy of a shared object is, is not modelled.
