# Cache-warming driver of the recommendations service

This project models the cache-warming driver `warm_history.py` in Dafny and proves properties of the model. Before real traffic arrives, the driver primes the recommendation service's session store and response cache. It works in four steps:

1. It picks the first distinct user ids from the ranked recommendations table.
2. For each picked user it posts to `/recommend`.
3. It feeds the `track_id`s of each answer back as the next request's `online_tracks`, for at most `max(1, rounds)` requests.
4. It reports which users got online history written (`warmed`) and which users saw `similar_online` recommendations.

Modules, one per concern:

- `Wrappers` (`wrappers.dfy`): `Option` and `Result`.
- `Seqs` (`seqs.dfy`): no-duplicates, flattening of scan batches and order-preserving subsequences.
- `Responses` (`responses.dfy`): the JSON answer of `/recommend`, with `take_seeds` and `sources_have_similar`. An answer is `NotAList` or a `List` of items. An item is `NonDict` or a `Dict` with optional `track_id` and `source`.
- `Picking` (`picking.dfy`): `pick_user_ids`. The parquet table is abstracted as a dataset descriptor: whether the file exists, its column names, and the `user_id` column as batches of nullable ids. A nested-loop implementation, the way the source scans, is proved equal to a functional reference.
- `Warming` (`warming.dfy`): the per-user round loop and `main`. The HTTP endpoint is an arbitrary function from the full log of requests it has received to a reply. A reply is either a decoded body or a failure. In the model, the service's state (session store, cache) is thereby a function of the requests it has received. A failure aborts the whole run, as the exception raised by `http_json` does.

The driver's contract is stated as protocol predicates:

- `Chained`: the first request has no `online_tracks`. Each later request carries exactly the non-empty seeds of the answer before it.
- `Answered`: every body is the endpoint's answer to the log up to that request.
- `ValidRun`: between 1 and `max(1, rounds)` requests, stopping early only after an answer without seeds. The two flags mean what the source uses them for.
- `ValidAbort`: a run cut short by a failed request.

`ValidRunUnique` shows that the protocol determines the run completely.

Points of `warm_history.py` the model keeps:

- The driver takes the seeds of an answer from the `track_id` key of its items.
- It stops driving a user when an answer yields no `track_id` among its first `seed_take` items, whatever the `source` of those items.
- With `--users` at or below zero, `pick_user_ids` returns at most one id: the first non-null one, if any. The length test follows the append. An empty or all-null column gives no ids, and `main` then stops with an error.

## Model

| member | source | states |
|---|---|---|
| Picking.PickUserIds | warm_history.py:29-52 | Missing file gives `FileNotFound`; a missing `user_id` column gives `NoUserIdColumn`; otherwise the nested batch scan returns exactly the functional reference `Picked` of the flattened column |
| Picking.ScanBatch | warm_history.py:41-50 | The inner loop over one batch either reaches the cap after some prefix of the batch, with the distinct ids of everything scanned so far, or consumes the whole batch below the cap with `seen` equal to the ids collected |
| Picking.StopEarly | warm_history.py:49-50 | Returning as soon as the cap is reached part-way through the scan already yields the answer for the whole scan |
| Picking.FirstDistinct | warm_history.py:40-48 | The ids kept by skipping nulls and repeats are duplicate-free and are exactly the non-null values of the scan |
| Picking.FirstDistinctSnoc | warm_history.py:42-48 | Scanning one more value appends it exactly when it is non-null and not seen before |
| Picking.FirstDistinctOrder | warm_history.py:40-48 | An id returned earlier first occurs earlier in the scan (first-occurrence order) |
| Picking.FirstDistinctPrefix | warm_history.py:40-50 | Scanning further only appends ids, so an early return gives a prefix of what the full scan collects |
| Picking.FirstIndex | warm_history.py:40-45 | The index returned holds the id and no earlier index does |
| Picking.Cap | warm_history.py:49-50 | The scan stops after exactly `take` ids for `take >= 1` and after exactly one id otherwise |
| Picking.PickedPromises | warm_history.py:40-52 | The picked ids are duplicate-free, each occurs in the scan, in first-occurrence order, at most `take` (at most one for `take <= 0`), a prefix of the distinct ids, and all of them when fewer than the cap exist |
| Responses.SeedsOf | warm_history.py:64-68 | The seeds are no more than the items, and every seed is the `track_id` of some dict item holding one |
| Responses.SeedPositions | warm_history.py:65-66 | The positions of dict items holding `track_id` are increasing, in range, and include every such item |
| Responses.SeedsOfPositions | warm_history.py:64-68 | The seeds are, one for one and in order, the `track_id`s at those positions |
| Responses.SeedsOfCount | warm_history.py:64-68 | There are as many seeds as dict items holding `track_id`, so repeated track ids are not deduplicated |
| Responses.TakeSeeds | warm_history.py:61-65 | A non-list body or `seed_take <= 0` gives no seeds; otherwise at most `min(seed_take, len(recs))` seeds |
| Responses.TakeSeedsExactly | warm_history.py:61-68 | On a list, the seeds are in order the `track_id`s of exactly the dict items holding one among the first `seed_take` items |
| Responses.TakeSeedsMembership | warm_history.py:61-68 | A track id is a seed iff one of the first `seed_take` items of a list body is a dict with that `track_id` |
| Responses.AnySimilar | warm_history.py:58 | True iff some element is a dict with `source == "similar_online"` |
| Responses.SourcesHaveSimilar | warm_history.py:55-58 | False for a non-list body; otherwise true iff some dict element has `source == "similar_online"` |
| Warming.RoundCap | warm_history.py:92 | The loop bound is exactly `max(1, rounds)`: at least one and at least `rounds`, and equal to one of them |
| Warming.NextRequest | warm_history.py:93-95 | The payload carries the user id, and carries `online_tracks` exactly when there are seeds, equal to the seeds |
| Warming.WarmUser | warm_history.py:87-111 | A completed user run satisfies `ValidRun`: between 1 and `max(1, rounds)` requests, first without `online_tracks`, each next one carrying the previous answer's non-empty seeds, stopping early only after an answer without seeds, with `wroteOnline`/`sawSimilar` meaning some request carried tracks / some answer had a `similar_online` item; a failed request yields a `ValidAbort` naming the request the protocol sent next |
| Warming.ProgressStep | warm_history.py:92-103 | One round keeps the loop's knowledge: the exchanges stay chained and answered, the seeds are the new answer's, and the flags absorb the new exchange |
| Warming.WroteOnlineIffSeveralRequests | warm_history.py:94-96 | A user's online history was written iff at least two requests were sent for it |
| Warming.LaterRequestsCarrySeeds | warm_history.py:93-103 | Every request after the first is for the same user and carries non-empty `online_tracks` |
| Warming.SamePrefix | warm_history.py:92-101 | Two protocol-following runs against the same endpoint and log agree exchange by exchange |
| Warming.ValidRunUnique | warm_history.py:87-111 | Given the endpoint and what it saw before, a user's run, including both flags, is uniquely determined |
| Warming.AnsweredSnoc | warm_history.py:98 | Appending an exchange that the endpoint answered after the earlier requests keeps every response answered |
| Warming.FlagsSnoc | warm_history.py:94-99 | The online and similar flags of a run grow exactly by what the newest exchange shows |
| Warming.RunsSnoc | warm_history.py:87-98 | Driving the next picked user after the earlier ones extends the protocol-following runs and the endpoint's request log |
| Warming.ClassifiedSnoc | warm_history.py:108-111 | Sorting one more user keeps `warmed` and `with_similar` order-preserving subsequences of the picked ids, with membership iff at least two requests / some `similar_online` answer |
| Warming.Warm | warm_history.py:77-111 | A picking failure or an empty pick is an error without requests; otherwise the users are driven in pick order by valid runs against one shared request log; on success every picked user is driven and the report is classified as above; a failed request stops at the first failing user with a `ValidAbort` |

## Left out

- `http_json` (warm_history.py:16-26): URL building, JSON encoding and decoding, and the mapping of HTTP errors. The endpoint is a function parameter. Every exception it can raise (HTTP error, connection error, timeout, invalid JSON) is one `Failed` reply, which aborts the run.
- Parquet access through pyarrow (warm_history.py:30-41): the file, schema and scanner are the `Dataset` descriptor. The 200 000-row batch size is not modelled; any batching is allowed, and the result is proved to depend only on the flattened column.
- Responses.TakeSeeds: `int(item["track_id"])` on a value that is not an integer (a float that gets truncated, a numeric string, or `null`, which raises) is not modelled. A present `track_id` is an integer.
- Picking.PickUserIds: `int(value)` conversion of non-integer column values is not modelled. The null-skipping path models a column whose nulls reach Python as `None` (an object-typed column). For an integer `user_id` column, the conversion at warm_history.py:41 turns a null into NaN. Then `value is None` is false and `int(value)` raises, so the source aborts where the model skips the null.
- `time.sleep`, environment variables, the click command-line parsing, the JSON file write and the console echo (warm_history.py:77-79, 105-106, 113-123): these are I/O. The report is returned as a value instead of being written.
- Warming.WarmUser: the source sets `wrote_online` just before the request. The model sets it just after a successful reply. The two differ only when the request fails, and then the whole run aborts and the flag is never read.
- Picking.PickUserIds: the model assumes `CFG.RECS_FILES["ranked"]` is a path, so that `Dataset.found` reflects whether the file exists. In config.py:27-33 of this repository that entry is the plain string `"recommendations.parquet"`. So `.exists()` at warm_history.py:30 raises `AttributeError` for every dataset, and with this config the driver stops there. The model does not represent that configuration.
- Warming.Warm: the model assumes `CFG.SERVICE_FILES["warmed_users"]` names a writable path, and returns the report as a value. config.py in this repository defines no `SERVICE_FILES`. So warm_history.py:113 would raise `AttributeError` after every user had been driven, and the run would end in an error instead of a written report. The file write itself is I/O and is not modelled.
- Warming.ValidRunUnique and Warming.SamePrefix: the endpoint is a deterministic function of the driver's own request log. The model leaves out the clock and traffic from other clients. The clock covers cache expiry, rate-limit windows and the driver's pause between rounds (warm_history.py:105-106). In the real system these can make the same log get different answers, so the uniqueness holds only for the modelled endpoint.
- The recommendation service itself (blender, session store, response cache, rate limiter): its code is not part of this model. It appears only as the abstract endpoint.
- `scripts/als_recs.py`, `config.py`, `settings.py` and `test_service.py`: these cover offline matrix-factorisation training with floating point and native libraries, configuration constants, and tests of the service, whose code is not part of this model. None of them contains driver logic.
