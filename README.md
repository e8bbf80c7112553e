# kview-panel: watch list and bulk-import jobs

This project models two self-contained parts of the kview-panel administration
panel for a Deno KV store. Both are written in Dafny and proved.

**The watch list** (`utils/watches.ts`) is the ordered list of KV keys the panel
watches.
- A key is a sequence of typed parts: string, number, bigint, boolean or byte array.
- Keys are compared by structure.
- `addWatch` appends a key unless an equal key is already in the list.
- `deleteWatch` filters out every key equal to the given one.
- Requests carry keys in a tagged wire form. The wire form is checked against a
  schema (`parseWatchBody`) before it is decoded.
- The list is serialised to that wire form and persisted in a string store
  (`localStorage`), under the item `kview__panel_watches`.

The model has four modules:
- `KvKeys`: key parts, the structural `equals`, parsed JSON values, the wire form and the external codecs.
- `WatchBody`: the schema as the predicates `ValidPart`/`ValidBody`, and a parser proved to accept exactly those bodies.
- `Watches`: add, delete, serialise, load/save, and the two `/api/watch` routes that change the list.
- `Jobs`: the bulk-import jobs.

The codecs come from libraries outside this model. They are carried as the
fields of a `Codec` value:
- `toKey` (may throw);
- `keyToJSON`;
- `JSON.stringify`;
- `JSON.parse` together with the check that its result is an array of wire keys. `parse` returning `None` stands for text that is not JSON, a result that is not an array (so `.map` throws), and an element that is not a wire key. The `as KvKeyJSON[]` cast itself is only a compile-time annotation. `toKey` is applied afterwards, by `DecodeAll`: a wire key that `toKey` rejects makes `DecodeAll` return `None`.

`RoundTrips(c)` states the assumptions the persistence lemmas rely on:
- `toKey(keyToJSON(k)) == k`;
- parsing stringified text gives the list back;
- stringified text is never empty.

**Bulk-import jobs** (`utils/jobs.ts`) track one NDJSON import each.
- A `Job` object holds a state (`pending`, `processing`, `aborted`, `done`, `errored`), three counters and an error.
- Its `state` setter sets a start mark when the job leaves `pending`.
- The first assignment of a terminal state takes a single duration measurement.
- The import's callbacks overwrite the state and the counters.
- A module counter gives each job the next id.
- A module map holds every job ever created, in insertion order.

In the model:
- `Job` and `JobTable` are classes.
- Each method of `Job` is specified by a function on `JobView`, the job's fields as a value: `Assign`, `Progress`, `Complete` and `Fail`.
- The properties are proved about those functions.
- The performance clock is a parameter `now` of every operation that reads it. The mark and the measurement taken in one setter call share one `now`.
- The clock only moves forward. Every operation requires that `now` is not earlier than the job's start mark (`ClockAfterMark`), and a series of setter calls requires non-decreasing times (`ClockForward`). So a measured duration is a natural number.

The setter has no guard against leaving a terminal state. `abort` only sets the
state and does not stop the import. So an import that is aborted and then
completes ends up `done`. `CompletionOverwritesAbort` and
`AbortedImportCompletes` state this behaviour as it is written.

Two behaviours of the code worth noting:
- The schema does not compare `byteLength` with the encoded bytes. A `Uint8Array` part is accepted with any numeric `byteLength`.
- `getWatches` returns the empty list on every failure, including a key that cannot be decoded.

## Model

| member | source | states |
|---|---|---|
| KvKeys.KeyEquals | utils/watches.ts:76 | the toolbox `equals` compares length and parts position by position; it holds exactly when the keys are equal values |
| KvKeys.PartEquals | utils/watches.ts:84 | parts of different types are unequal; same-typed parts are equal exactly when their values are (byte arrays byte for byte) |
| WatchBody.ParseNumber | utils/watches.ts:23 | a number part's value is accepted exactly when it is a JSON number or "NaN", "Infinity", "-Infinity", and the parsed value encodes back to the input |
| WatchBody.ParsePart | utils/watches.ts:12-30 | an element is accepted exactly when it matches one of the four object shapes; the parsed part keeps exactly the schema's fields with the input's values |
| WatchBody.ParseParts | utils/watches.ts:12 | an array is accepted iff every element is valid; on success each element is parsed in place; on failure the reported index is the first invalid element |
| WatchBody.ParseWatchBody | utils/watches.ts:49-51 | succeeds iff the body is an object whose `key` is an array of valid parts (empty allowed); distinguishes a non-object body, a missing or non-array `key` and the first invalid part |
| WatchBody.PartRoundTrip | utils/watches.ts:11-31 | a wire part encoded as a client sends it is accepted and parsed back to itself |
| WatchBody.BodyRoundTrip | utils/watches.ts:49-51 | a request body built from any wire key is accepted and yields that key |
| Watches.SomeEquals | utils/watches.ts:76 | the `some(equals)` test is true exactly when an equal key is in the list |
| Watches.Without | utils/watches.ts:84 | the filtered list holds exactly the elements of the input that differ from the key |
| Watches.AddWatch | utils/watches.ts:73-80 | fails iff `toKey` fails; otherwise the result contains the decoded key, equals the input when the key is present, and is the input with the key appended otherwise |
| Watches.DeleteWatch | utils/watches.ts:82-85 | fails iff `toKey` fails; otherwise the result has no copy of the key, keeps every other element with its multiplicity and in its relative order |
| Watches.WithoutIsSubsequence | utils/watches.ts:84 | filtering keeps the remaining elements in their original relative order |
| Watches.WithoutMultiset | utils/watches.ts:84 | filtering removes every copy of the key and keeps every copy of every other element |
| Watches.WithoutAbsent | utils/watches.ts:84 | filtering a list that does not contain the key returns it unchanged |
| Watches.WithoutNoDuplicates | utils/watches.ts:84 | filtering a duplicate-free list gives a duplicate-free list |
| Watches.DeleteWatchAbsent | utils/watches.ts:82-85 | deleting an absent key returns a list equal to the input |
| Watches.DeleteWatchIdempotent | utils/watches.ts:82-85 | deleting the same key twice gives the same list as deleting it once |
| Watches.DeleteWatchNoDuplicates | utils/watches.ts:82-85 | a duplicate-free list stays duplicate-free after a delete |
| Watches.AddWatchIdempotent | utils/watches.ts:73-80 | adding the same key twice gives the same list as adding it once |
| Watches.AddWatchNoDuplicates | utils/watches.ts:74-78 | a duplicate-free list stays duplicate-free after an add |
| Watches.AddTwoWatches | utils/watches.ts:73-80 | after adding two keys to a duplicate-free list both are present and there are no duplicates |
| Watches.Serialize | utils/watches.ts:53-55 | same length as the list, element i is `keyToJSON` of element i |
| Watches.DecodeAll | utils/watches.ts:61 | decoding a list fails iff some element fails; otherwise it has the same length and element i decodes from wire element i |
| Watches.DecodeSerialized | utils/watches.ts:61-70 | under the codec round trip, decoding a serialised list gives the list back |
| Watches.GetWatches | utils/watches.ts:57-67 | the empty list when the item is absent, empty or unparsable, or holds an undecodable key; when the item is present, non-empty, parsable and every element decodes, the result is exactly the decoded list, element by element |
| Watches.SetWatches | utils/watches.ts:69-71 | stores the stringified serialised list under the watch item and leaves every other item unchanged |
| Watches.PersistRoundTrip | utils/watches.ts:57-71 | under the codec assumptions, loading after saving a list yields that list, whatever the store held before |
| Watches.PutWatch | main.ts:271-290 | the request succeeds iff the body is valid and its key decodes; then the new registry is exactly `addWatch`'s result, so the key is in it and nothing was removed; a refused request leaves the registry unchanged; duplicate-freedom is kept |
| Watches.DeleteWatchRequest | main.ts:291-310 | the request succeeds iff the body is valid and its key decodes; then the new registry is exactly `deleteWatch`'s result, so the key is gone and every other key stays; a refused request leaves the registry unchanged; duplicate-freedom is kept |
| Watches.PutThenDelete | main.ts:268-310 | a PUT of a key is accepted and the listing then holds the key's wire form; a DELETE of the same body is accepted and removes the key |
| Jobs.NewJob | utils/jobs.ts:54-65 | a new job is `pending`, has counters 0, no error and no duration |
| Jobs.Assign | utils/jobs.ts:33-48 | the setter stores the value unconditionally, sets the start mark only on leaving `pending`, measures once on the first terminal assignment (a non-negative duration, since the clock has not gone back since the mark), never re-measures, changes nothing else and keeps the job invariant |
| Jobs.Run | utils/jobs.ts:33-48 | a series of setter calls at non-decreasing times keeps the invariant and leaves the last value assigned as the state |
| Jobs.DurationMeasuredOnce | utils/jobs.ts:29-46 | once the duration is defined no later assignment changes it; starting without one, it is defined exactly when some assignment was terminal |
| Jobs.Progress | utils/jobs.ts:111-118 | the state changes only from `pending` to `processing`; the counters are overwritten with the arguments; the duration, error and prefix are untouched; the start mark is set to `now` when leaving `pending` and kept otherwise; called no earlier than the start mark, it keeps the job invariant |
| Jobs.Complete | utils/jobs.ts:119-123 | the state becomes `aborted` when the import reports an abort and `done` otherwise, whatever it was; the counters are overwritten; the start mark is set to `now` when leaving `pending` and kept otherwise; a first measurement is `now` minus the mark (non-negative, the clock being at or after the mark), an earlier measurement is kept; the prefix is kept |
| Jobs.Fail | utils/jobs.ts:124-127 | the state becomes `errored` and the thrown value is recorded; the start mark is set to `now` when leaving `pending` and kept otherwise; a first measurement is `now` minus the mark (non-negative), an earlier measurement is kept; the counters and prefix are kept |
| Jobs.CompletionOverwritesAbort | utils/jobs.ts:81-88 | a processing job that is aborted and then completed, at a later or equal time, by a non-aborting import ends `done`, with the duration measured at the abort |
| Jobs.ToJson | utils/jobs.ts:67-74 | the JSON has id, count, skipped, state and duration; it has the stringified error iff the error is truthy |
| Jobs.ToJsonOmits | utils/jobs.ts:67-74 | the JSON does not depend on the error counter, the prefix or the start mark |
| Jobs.Job.constructor | utils/jobs.ts:62-65 | a constructed job satisfies its invariant and has the fields of a new job |
| Jobs.Job.Duration | utils/jobs.ts:29-31 | the duration is the job's one measurement, defined in every terminal state and only when a start mark exists |
| Jobs.Job.SetState | utils/jobs.ts:33-48 | called no earlier than the start mark, the new fields are `Assign` of the old ones; the invariant is kept |
| Jobs.Job.OnProgress | utils/jobs.ts:111-118 | the new fields are `Progress` of the old ones |
| Jobs.Job.OnComplete | utils/jobs.ts:119-123 | the new fields are `Complete` of the old ones |
| Jobs.Job.OnFailure | utils/jobs.ts:124-127 | the new fields are `Fail` of the old ones |
| Jobs.JobTable.constructor | utils/jobs.ts:77-79 | the counter starts at 0 and the table is empty |
| Jobs.JobTable.ImportNdJson | utils/jobs.ts:98-105 | the new job has id counter+1 (so ids start at 1, increase and are unique); it is registered before it is returned, appended to the insertion order, and `getJob` finds it; no job is removed |
| Jobs.JobTable.Abort | utils/jobs.ts:81-88 | returns true iff the job exists and is `pending` or `processing`, and then the job is `Assign(…, aborted)`; otherwise nothing changes |
| Jobs.JobTable.GetJob | utils/jobs.ts:90-92 | finds a job iff its id is in the table, and the job found has that id |
| Jobs.JobTable.GetJobs | utils/jobs.ts:94-96 | lists every job of the table once, in insertion order, with strictly increasing ids |
| Jobs.AbortedImportCompletes | utils/jobs.ts:104-127 | register, progress, abort, then a non-aborting completion: the job ends `done` with the duration measured at the abort, and the table still holds it |

## Left out

- `watchKv` and the `/api/watch/server` WebSocket route are not modelled. They are a streaming read loop, a reactive effect and a socket bridge, i.e. I/O and concurrency. The code does not cancel an earlier reader when the effect re-runs, so no handle-release guarantee is stated.
- The other HTTP routes of `main.ts` are left out. They are request/response glue over the KV engine.
- The bodies of `toKey`, `keyToJSON`, `equals`, valibot, `JSON.stringify`/`JSON.parse` and `importEntries` belong to external libraries.
  - The codecs are abstract functions with the round-trip assumptions of `RoundTrips`.
  - `equals` is modelled as structural comparison.
  - The import itself is not modelled. Only its callbacks are, as `Job` methods.
- Floating-point numbers are left out. A finite number is an opaque integer token, and NaN and ±Infinity are sentinel values. `KeyEquals` therefore treats a NaN part as equal to itself; how the external `equals` treats NaN is not modelled.
- The request-body decoding (`await req.json()`) of the PUT and DELETE `/api/watch` routes is not modelled. The routes take an already-parsed JSON value. In the code, text that is not JSON is answered with 400 and leaves the registry unchanged, like any other refused request.
- The reactive signal in `utils/state.ts` is left out. It loads the list at start and writes it back after every change. The model gives load and save as functions over the store.
- The `structuredClone` in `addWatch` needs no model: lists are values, so the caller's list can never be changed.
- The performance timeline is reduced to one start time per job and the measured duration. Its named entries are not kept.
- Logging (`logger.debug`) and the opening of the KV handle in `importNdJson` are left out.
- `Jobs.JobTable.Abort`: requires the job's own invariant. Every job reaches the table through `ImportNdJson`, and its methods keep that invariant.
