# kardinal-promoter controller: verified model

A Dafny model of the stateful parts of the kardinal-promoter controller
(`cmd/kardinal-controller`), of the fair sharing of outbound call slots (`pkg/slots`), and of the
generated copy code and update rules in `api/v1alpha1`. `dafny verify dfyconfig.toml` checks everything.

| file | what it models |
|---|---|
| `Timeline.dfy` | counting over runs of timed events; stretches of calls against intervals of time |
| `TokenBucket.dfy` | one token bucket, as `rate.Limiter.AllowN(now, 1)` |
| `KeyedLimiter.dfy` | the bounded, evicting table of buckets: the code, the table bound, the sliding bound |
| `KeyedLimiterRefinement.dfy` | the table against a limiter that keeps every key; key isolation; when the table is full |
| `AdmissionExact.dfy` | every answer of the limiter described without buckets |
| `KeyedLimiterExactness.dfy` | the refill condition is necessary as well |
| `OutOfOrder.dfy` | calls whose times go back: exactly when the bound over an interval fails |
| `TablePressure.dfy` | exactly when one key's call changes another key's answer |
| `WebhookLimits.dfy` | the receivers' constants |
| `SubscriptionReceiver.dfy`, `ChangeRequestReceiver.dfy` | the two webhook handlers, interleaved, and what their limits promise together |
| `OverLimit.dfy` | what a sender over its own limit does to others |
| `FixedWindow.dfy` | the per-second audit budget and the per-minute Bundle API limit |
| `AuditPipeline.dfy` | the audit writer as an interleaving of handlers, consumer and shutdown |
| `RefreshProtocol.dfy`, `RefreshFleet.dfy` | refresh requests, deliveries and polls as a protocol, for one Subscription and for all |
| `MergePatch.dfy`, `RefreshPatch.dfy` | RFC 7396 merge patches and the patch the webhook sends |
| `RefreshFanOut.dfy` | one trigger for all instances of a template, with failures and retries |
| `DeepCopy.dfy`, `AgentIndexCopy.dfy` | the generated deep copies, on the heap |
| `GoStrings.dfy`, `WebhookPaths.dfy`, `UIBasePath.dfy`, `SplitCsv.dfy` | paths, base path and flag lists |
| `SlotSpec.dfy` | call slots handed out first come, first served under two caps, with one queue |
| `SlotLimiter.dfy` | the limiter with a queue per namespace and a heap with stale entries, which does the same |
| `HttpServer.dfy` | one listener's serve and shutdown protocol |
| `AccessReview.dfy` | the memoised access answers |
| `BundleSpec.dfy` | the transition rules on a Bundle's spec |

## Conventions

Times are whole nanoseconds. A run is the sequence of calls, requests or steps since the object
was made; "in order" means that its times never go back. A token is worth `unit` units and
`perNano` units accrue each nanosecond, so rates are exact rationals. Authentication, what a
payload announces, the API server's answers and the clock are parameters.

## What the code does that its documentation does not say

* **A sender over its limit does use up a Subscription's budget.** The comment at
  `cmd/kardinal-controller/subscription_webhook.go:51-54` says it does not. The handler asks the
  per-Subscription limiter first (`:141`), so a request that its source's limit then refuses has
  already been charged. `OverLimitCharges` gives the exact condition: such a request leaves the
  budget alone if and only if the Subscription's own limit refuses it first.
  `OverLimitUsesUpSubscription` is a run of deliveries from the start in which ten such deliveries
  empty a Subscription's full budget, so that the next one for it gets 429 whatever its source.
* **It can also get other Subscriptions refused.** Each such request takes a place in the table of
  Subscriptions or renews one (`EveryRequestHoldsPlace`). `OverLimitFillsTable` is a run of deliveries in
  which 9998 of one source, all answered 429, fill the table, and for ten minutes every Subscription
  not in it gets 429. `OthersRefusedExactly` says when one request changes the answer to the next one for
  another Subscription, and `OnlyThroughFullTable` that there is no other way, however much later.
* **The bound over an interval needs calls in order.** `now` is read before the limiter's lock
  (`:140-141`). When calls may come in any order, burst + rate × d over an interval holds on every
  run if and only if the limiter never admits a call (`OutOfOrderExceeds`). A key that is swept out
  on an early reading and whose late calls then arrive gets a second burst at one instant; for the
  constants in use that is 40 calls of one source and 20 for one Subscription (`ConstantsExceed`).
  A bucket's clock moving back is a second reason, which needs one key only: `OneKeyExceeds` says
  exactly when. `SlidingBound` is the bound that holds on every run: over the time the clock moved
  forwards.
* **Triggers out of order can count against a template.** The replay result for change requests,
  `OnlyValidTokensCharge`, is for triggers that arrive in order. `ReplayDiffers` is a run on which it
  fails: a trigger without the token that carries an earlier time moves the coarse bucket's clock
  back, and so lets an authenticated one through that would have been refused.
* **Eviction is invisible exactly when ten idle minutes refill a bucket.** `EvictionInvisibleExactly`
  and `SlidingBoundExactly` prove both directions; `ConstantsRefill` shows that the constants in use qualify.
* **A copy of the struct alone would lose refresh requests.** Against a merge base that shares the
  annotations the difference is empty, except where there were no annotations yet
  (`SharedBaseSendsNothing`).
* **A refresh request can be lost to a repeated time.** After a delivery a request is outstanding
  exactly when the time written is not the one last answered (`DeliveryLeavesOutstanding`,
  `ReplayWritesNone`); `RepeatedTimeIsLost` gets there. The protocol results take times that do not repeat.
* **An encoded base path is not found.** `http.StripPrefix` also looks at the encoded path;
  `Transparent` says when that matters.

## Model

| member | source | states |
|---|---|---|
| `TokenBucket.AvailableGrows` | cmd/kardinal-controller/subscription_webhook.go:305 | a balance grows by no more than the rate over the time the clock moved forwards, also when a call comes late |
| `KeyedLimiter.Limiter.constructor` | cmd/kardinal-controller/subscription_webhook.go:282-284 | a new limiter has an empty table |
| `KeyedLimiter.Limiter.Sweep` | cmd/kardinal-controller/subscription_webhook.go:292-296 | the deleting loop leaves exactly the keys seen within the last 600 seconds, unchanged |
| `KeyedLimiter.Limiter.Allow` | cmd/kardinal-controller/subscription_webhook.go:286-306 | the new table and the answer are those of one step of the specified table, about which the results below are proved |
| `KeyedLimiter.TableBounded` | cmd/kardinal-controller/subscription_webhook.go:266-284 | on every run at any times the table holds at most `max` entries and every balance lies between nothing and full |
| `KeyedLimiter.SlidingBound` | cmd/kardinal-controller/subscription_webhook.go:266-306 | on every run, out-of-order calls, evictions, re-creations and full-table refusals included, the calls admitted for a key over any stretch cost at most one burst plus the refill over the clock's forward movement |
| `KeyedLimiter.SlidingBoundInterval` | cmd/kardinal-controller/subscription_webhook.go:266-306 | on calls in order, at most burst + rate × d for one key in any interval of length d |
| `KeyedLimiterRefinement.EvictionInvisible` | cmd/kardinal-controller/subscription_webhook.go:286-306 | on every run in order, each call the table has room for is answered as by a limiter that keeps every key for ever and is fed the calls so served; on a run that never finds the table full, as by one fed the same run |
| `KeyedLimiterRefinement.KeysIsolated` | cmd/kardinal-controller/subscription_webhook.go:286-306 | each such answer is that of a bucket fed only the key's own served calls |
| `KeyedLimiterRefinement.FullExactly` | cmd/kardinal-controller/subscription_webhook.go:290-300 | a call is refused for a full table if and only if its key is not in the table and `max` keys were served in the last ten minutes |
| `AdmissionExact.AdmitsExactly` | cmd/kardinal-controller/subscription_webhook.go:305 | a bucket admits a call if and only if that breaks the sliding bound over no stretch of calls ending with it |
| `AdmissionExact.LimiterExactly` | cmd/kardinal-controller/subscription_webhook.go:286-306 | the same for the evicting table, on every run in order and every call it has room for: nothing is refused that could be admitted and nothing admitted that should not be |
| `KeyedLimiterExactness.EvictionInvisibleExactly` | cmd/kardinal-controller/subscription_webhook.go:291-301 | for every rate: eviction changes no answer on any run in order and table size if and only if ten idle minutes refill the bucket, full tables included or not |
| `OutOfOrder.SlidingBoundExactly` | cmd/kardinal-controller/subscription_webhook.go:266-306 | for every rate: burst + rate × d holds on all runs in order and all table sizes if and only if ten idle minutes refill the bucket |
| `OutOfOrder.OutOfOrderExceeds` | cmd/kardinal-controller/subscription_webhook.go:140-141 | for every limiter: on calls in any order burst + rate × d holds on every run if and only if the table has no place or the bucket no token |
| `OutOfOrder.SecondBurstExceeds` | cmd/kardinal-controller/subscription_webhook.go:286-306 | in every other limiter a run gives one key two full bursts at one instant |
| `OutOfOrder.OneKeyExceeds` | cmd/kardinal-controller/subscription_webhook.go:305 | for one key alone it holds on every run if and only if nothing is admitted, a bucket holds one token, or nothing is refilled |
| `TablePressure.OthersReply` | cmd/kardinal-controller/subscription_webhook.go:286-306 | one more call changes the answer to the next call of another key if and only if that key has no place then and finds `max` keys served lately, and would not have without it; the change is a refusal for a full table |
| `TablePressure.OnlyThroughFullTable` | cmd/kardinal-controller/subscription_webhook.go:286-306 | any later answer for another key differs only if one of that key's calls by then found the table full in one case and not in the other |
| `WebhookLimits.ConstantsRefill` | cmd/kardinal-controller/subscription_webhook.go:55-59 | the rates and bursts in use satisfy the refill condition |
| `WebhookLimits.ConstantsExceed` | cmd/kardinal-controller/subscription_webhook.go:55-59 | with the constants in use, out-of-order calls get 40 admitted for a source and 20 for a Subscription at one instant |
| `SubscriptionReceiver.Receiver.constructor` | cmd/kardinal-controller/subscription_webhook.go:99-107 | two separate limiters with the configured constants |
| `SubscriptionReceiver.Receiver.Admit` | cmd/kardinal-controller/subscription_webhook.go:140-145 | both tables and the decision are those of the specified limits, the source's limiter untouched when the Subscription's refuses |
| `SubscriptionReceiver.TablesAreLimiters` | cmd/kardinal-controller/subscription_webhook.go:121-145 | however requests interleave between their two limits, each table is that of a limiter fed exactly the calls that reach it |
| `SubscriptionReceiver.UninterruptedIsHandle` | cmd/kardinal-controller/subscription_webhook.go:121-160 | a delivery nothing comes between leaves the tables the handler leaves, is authenticated if and only if its moves are counted as an authentication, and gets 429 if and only if one of the two limits refuses |
| `SubscriptionReceiver.CheckedWasAdmitted` | cmd/kardinal-controller/subscription_webhook.go:141-160 | nothing is authenticated that both limiters did not admit |
| `SubscriptionReceiver.VerdictExactly` | cmd/kardinal-controller/subscription_webhook.go:121-190 | each status, and the refresh, if and only if its condition on the method, the path, the two limits, the body, the authentication and the event holds |
| `SubscriptionReceiver.SubscriptionBounded` | cmd/kardinal-controller/subscription_webhook.go:121-167 | on every interleaving in which the per-Subscription limiter is asked in order: in any interval of d, at most 10 + 5 a second authentications for one Subscription |
| `SubscriptionReceiver.SourceBounded` | cmd/kardinal-controller/subscription_webhook.go:121-167 | on every interleaving in which the per-source limiter is asked in order: in any interval of d, at most 20 + 10 a second authentications from one source |
| `SubscriptionReceiver.SubscriptionsApart` | cmd/kardinal-controller/subscription_webhook.go:127-141 | two accepted paths share a limiter key if and only if they name the same Subscription |
| `OverLimit.OverLimitCharges` | cmd/kardinal-controller/subscription_webhook.go:51-54 | a request from a source over its limit is refused, and leaves the Subscription's budget alone if and only if the Subscription's limit refused it |
| `OverLimit.OverLimitEmpties` | cmd/kardinal-controller/subscription_webhook.go:51-54 | after any run: ten refused requests of such a source empty a Subscription's full budget, known or new, for every source |
| `OverLimit.OverLimitUsesUpSubscription` | cmd/kardinal-controller/subscription_webhook.go:51-54 | a whole run of deliveries from the start: thirty from one source, the last ten of which get 429, and then so does every delivery for the Subscription they name, whatever its source; without the ten a delivery from elsewhere passes |
| `OverLimit.EveryRequestHoldsPlace` | cmd/kardinal-controller/subscription_webhook.go:289-304 | a request leaves its Subscription in the table as of now if and only if the table was not full, whatever either limit answers |
| `OverLimit.TablesFullExactly` | cmd/kardinal-controller/subscription_webhook.go:57-59 | on every interleaving in order, either table refuses for want of room if and only if the key is not in it and 10000 keys were served in the last ten minutes |
| `OverLimit.OthersRefusedExactly` | cmd/kardinal-controller/subscription_webhook.go:51-54 | after any interleaving: when exactly one request gets the next one for another Subscription refused |
| `OverLimit.OverLimitFillsTable` | cmd/kardinal-controller/subscription_webhook.go:51-54 | a whole run of deliveries from the start in which deliveries of one source that all get 429 fill the table, and every Subscription not in it gets 429 for ten minutes |
| `OverLimit.RefusedIs429` | cmd/kardinal-controller/subscription_webhook.go:141-145 | a delivery after any deliveries gets 429 if and only if its request is refused after theirs |
| `OverLimit.DeliveriesAreMoves` | cmd/kardinal-controller/subscription_webhook.go:121-145 | a run of whole deliveries is one of the interleavings, with the tables the handler leaves |
| `ChangeRequestReceiver.OnlyValidTokensCharge` | cmd/kardinal-controller/changerequest_webhook.go:35-39 | after any run of triggers that arrive in order, however they interleave afterwards, the per-template table equals the table after replaying only the moves of authenticated triggers, those that passed the coarse limit with a valid token |
| `ChangeRequestReceiver.ReplayDiffers` | cmd/kardinal-controller/changerequest_webhook.go:104-137 | with arrivals out of order it can fail: 99 authenticated triggers, one without the token at an earlier time and two more authenticated ones |
| `ChangeRequestReceiver.ReplayArrive` | cmd/kardinal-controller/changerequest_webhook.go:94-133 | a replayed trigger with a valid token passes the coarse limit again, because a bucket that served fewer calls has more left |
| `ChangeRequestReceiver.ReplayProceed` | cmd/kardinal-controller/changerequest_webhook.go:134-138 | and gets the same answer from its template's limit |
| `ChangeRequestReceiver.VerdictExactly` | cmd/kardinal-controller/changerequest_webhook.go:94-148 | each status, going on to the template, and the refresh, if and only if its condition on the method, the path, the two limits, the body and the token holds |
| `ChangeRequestReceiver.TemplatesApart` | cmd/kardinal-controller/changerequest_webhook.go:133-134 | two triggers share a template's limit if and only if they name the same template |
| `ChangeRequestReceiver.EachProceedsOnce` | cmd/kardinal-controller/changerequest_webhook.go:128-138 | on every interleaving each authenticated trigger asks its template's limit once or is still pending, and the table is that of a limiter fed those calls |
| `ChangeRequestReceiver.ReadsBounded` | cmd/kardinal-controller/changerequest_webhook.go:105-110 | on every interleaving of triggers that arrive in order, at most 100 + 50 a second pass the coarse limit and cost reads |
| `ChangeRequestReceiver.CoarseExactly` | cmd/kardinal-controller/changerequest_webhook.go:39 | on arrivals in order a trigger passes the coarse limit if and only if that makes no more than 100 and 50 a second over any stretch ending with it |
| `FixedWindow.AuditBudget.Allow` | cmd/kardinal-controller/actors.go:174-186 | window and answer are those of the specified budget |
| `FixedWindow.AllowedExactly` | cmd/kardinal-controller/actors.go:174-186 | a record is allowed if and only if fewer than 50 were since its window opened |
| `FixedWindow.AuditBound` | cmd/kardinal-controller/actors.go:110-111 | at most 50·(k+1) records in any half-open interval of k seconds, wherever it starts |
| `FixedWindow.TokenRateLimiter.constructor` | cmd/kardinal-controller/bundle_api.go:92-98 | no counts, and the first window ends a minute after creation |
| `FixedWindow.TokenRateLimiter.Allow` | cmd/kardinal-controller/bundle_api.go:101-111 | counts, reset time and answer are those of the specified limiter |
| `FixedWindow.PermitsExactly` | cmd/kardinal-controller/bundle_api.go:100-111 | a request is permitted if and only if the caller's own requests since the window opened, refused ones and itself included, are within the limit |
| `FixedWindow.CallerBound` | cmd/kardinal-controller/bundle_api.go:100-111 | at most limit·(k+1) permitted requests per caller in any closed interval of k minutes |
| `FixedWindow.CallersApart` | cmd/kardinal-controller/bundle_api.go:200-204 | callers share a window if and only if they are the same caller |
| `AuditPipeline.EveryRunKeeps` | cmd/kardinal-controller/actors.go:134-215 | on every interleaving: accepted = attempted ++ in flight ++ queued in order; every valid write has exactly one fate and each attempt ends in a record or a counted drop; at most 256 queued; after return, attempted is what had been accepted at the last empty check |
| `AuditPipeline.Accounted` | cmd/kardinal-controller/actors.go:134-215 | the counts of created, dropped, held, in flight and queued writes add up to the valid ones |
| `AuditPipeline.EachFateExactly` | cmd/kardinal-controller/actors.go:134-215 | on every run created are the writes the API server took and error drops those it refused, rate drops those the budget had no room for, queue drops those sent with 256 queued; all in order |
| `AuditPipeline.RecordExactly` | cmd/kardinal-controller/actors.go:134-172 | a record changes nothing if and only if it names no namespace or no object; otherwise it is a rate drop, a queue drop or queued, by the budget and the 256 places |
| `AuditPipeline.QueueDropsExactly` | cmd/kardinal-controller/actors.go:167-171 | a write is dropped for the queue if and only if 256 accepted writes are still untaken |
| `AuditPipeline.RunWithinBudget` | cmd/kardinal-controller/actors.go:110-111 | on every interleaving at most 50·(k+1) writes get past the budget in any k seconds |
| `AuditPipeline.BudgetOfRun` | cmd/kardinal-controller/actors.go:174-186 | whatever happens in between, the budget's window is that of the handlers' own calls |
| `AuditPipeline.ConsumerCanStep` | cmd/kardinal-controller/actors.go:189-205 | once the context has ended the consumer can move if and only if it has not returned |
| `AuditPipeline.DrainEnds` | cmd/kardinal-controller/actors.go:188-205 | with no handler sending, the consumer stops within a bounded number of steps, and then has attempted every accepted write |
| `AuditPipeline.ApiAudit.Record` | cmd/kardinal-controller/actors.go:134-172 | the fields follow the pipeline's history through one record: the rate and queue counters and the queue change exactly when the budget has no room, the queue is full, or neither |
| `AuditPipeline.RecordedKeeps` | cmd/kardinal-controller/actors.go:134-172 | an uninterrupted record keeps the pipeline's invariant |
| `AuditPipeline.ApiAudit.Drain` | cmd/kardinal-controller/actors.go:195-202 | the drain loop, with handlers recording during its writes, ends with an empty queue and follows the specified drain |
| `AuditPipeline.DrainedKeeps` | cmd/kardinal-controller/actors.go:195-215 | the drain keeps the invariant and attempts every write accepted by its end, those that arrived during it included |
| `AuditPipeline.ApiAudit.Consume` | cmd/kardinal-controller/actors.go:192-215 | one write is taken from the queue and written, with handlers recording in between: it is created if the API server takes it and counted as an error if not |
| `AuditPipeline.ApiAudit.Start` | cmd/kardinal-controller/actors.go:188-205 | the consumer's loop follows the pipeline through any turns of handlers, consumer and context, handlers acting during every write too, and ends with an empty queue |
| `AuditPipeline.StartedKeeps` | cmd/kardinal-controller/actors.go:188-205 | when it returns every write accepted by then has been attempted |
| `AuditPipeline.StartedSorts` | cmd/kardinal-controller/actors.go:188-215 | from a new writer, every created write is one the API server accepts and every error drop one it refuses, and those are all the accepted writes |
| `AuditPipeline.StopsOnlyWhenEnded` | cmd/kardinal-controller/actors.go:189-196 | the consumer drains or returns only if the context has ended |
| `RefreshProtocol.WritesBalance` | cmd/kardinal-controller/subscription_webhook.go:407-424 | on every interleaving of deliveries and polls, writes = answered requests + the outstanding one, so writes ≤ answers + 1 |
| `RefreshProtocol.DeliveryLeavesOutstanding` | cmd/kardinal-controller/subscription_webhook.go:407-424 | after a delivery a request is outstanding if and only if one was or the time written is new; always so on times that do not repeat |
| `RefreshProtocol.RepeatedTimeIsLost` | cmd/kardinal-controller/subscription_webhook.go:407-424 | the other case is reachable: a time answered before is written again and never answered |
| `RefreshProtocol.AnsweredByLaterPoll` | api/v1alpha1/subscription_types.go:319-322 | an outstanding request stays until a poll that began after it was written ends with an answer |
| `RefreshProtocol.DeliveriesCoalesce` | cmd/kardinal-controller/subscription_webhook.go:84-88 | while a request is outstanding any number of deliveries change nothing |
| `RefreshFleet.RefreshesAreWrites` | cmd/kardinal-controller/subscription_webhook.go:407-424 | on every run over any number of Subscriptions, failed writes included, `refreshes` is the number of annotation writes |
| `RefreshFleet.RefreshesBounded` | cmd/kardinal-controller/subscription_webhook.go:407-424 | and at most the requests answered plus one a Subscription |
| `MergePatch.MergeOfDiff` | cmd/kardinal-controller/subscription_webhook.go:414-419 | a difference applied to its base gives the new object, for all objects |
| `MergePatch.DiffOfSet` | cmd/kardinal-controller/subscription_webhook.go:414-418 | setting one leaf of any object gives a difference that names that leaf only |
| `RefreshPatch.PatchIsMinimal` | cmd/kardinal-controller/changerequest_webhook.go:201-206 | the difference sent is exactly the refresh annotation, also when there were no annotations |
| `RefreshPatch.PatchInWords` | cmd/kardinal-controller/changerequest_webhook.go:205-206 | the patch written out: the one annotation kardinal.io/refresh under metadata.annotations |
| `RefreshPatch.PatchKeepsOthers` | cmd/kardinal-controller/subscription_webhook.go:414-419 | applied to whatever is stored by then, the patch sets the annotation and keeps every other field |
| `RefreshPatch.SharedBaseSendsNothing` | cmd/kardinal-controller/subscription_webhook.go:414 | against a base that is another object sharing the annotations the difference is empty; against one with none it is the annotation |
| `RefreshPatch.Subscription.DeepCopy` | cmd/kardinal-controller/subscription_webhook.go:414 | the merge base is equal in every field, nil annotations staying nil, and shares no storage |
| `RefreshPatch.Subscription.Stamp` | cmd/kardinal-controller/subscription_webhook.go:414-418 | after writing the annotation in place, the difference from the base names only it, or nothing if it had that value |
| `RefreshPatch.RefreshedIs` | cmd/kardinal-controller/subscription_webhook.go:414-419 | the patch merged into any stored object sets the annotation and keeps everything else |
| `RefreshPatch.Hook.Request` | cmd/kardinal-controller/subscription_webhook.go:409-424 | on any read and any stored object: nothing is written if and only if a request is outstanding in what was read; otherwise the patch is merged, and `refreshes` counts exactly the successful writes |
| `RefreshPatch.Hook.RequestRefresh` | cmd/kardinal-controller/subscription_webhook.go:407-424 | on a current read a call is one delivery step of its Subscription's protocol, a failed one none, and `refreshes` equals the writes of all protocols since the start |
| `RefreshFanOut.Instances.Refresh` | cmd/kardinal-controller/changerequest_webhook.go:186-212 | the loop's store, count and failure are those of the specified fan-out |
| `RefreshFanOut.FanOutStamps` | cmd/kardinal-controller/changerequest_webhook.go:186-212 | a successful call stamps exactly the listed instances that are neither suspended nor pending, and returns their number |
| `RefreshFanOut.FanOutExactly` | cmd/kardinal-controller/changerequest_webhook.go:186-212 | a call fails if and only if the patch of some listed instance that is neither suspended nor pending fails; up to the first such one exactly those instances have the new time, nothing else changes, and the count is their number |
| `RefreshFanOut.ReplayWritesNone` | cmd/kardinal-controller/changerequest_webhook.go:53-56 | after a successful call every listed instance that is not suspended has a request outstanding, and a replayed call changes nothing and returns 0 at any time and with any failures, if and only if the time was new to the eligible ones |
| `RefreshFanOut.RetryCompletes` | cmd/kardinal-controller/changerequest_webhook.go:195-211 | after a failure part-way, a successful retry at its own time leaves exactly the instances the first call reached with its time and the other eligible ones with the retry's; the counts add up to the instances eligible at first; all are outstanding if and only if the second time is new too |
| `DeepCopy.Actor.DeepCopyInto` | api/v1alpha1/zz_generated.deepcopy.go:17-24 | equal value, new storage, original unchanged |
| `DeepCopy.CopyActor` | api/v1alpha1/zz_generated.deepcopy.go:27-34 | the same through a pointer, nil staying nil |
| `DeepCopy.CopyExemption` | api/v1alpha1/zz_generated.deepcopy.go:2229-2237 | equal value, everything it holds new |
| `DeepCopy.FillExemptions` | api/v1alpha1/zz_generated.deepcopy.go:1487-1490 | the element loop gives equal values in order, all held storage new, the source slice unchanged |
| `DeepCopy.CopySlice` | api/v1alpha1/zz_generated.deepcopy.go:173-177 | equal contents in a new slice; nil stays nil and empty stays empty |
| `DeepCopy.CopyMap` | api/v1alpha1/zz_generated.deepcopy.go:249-255 | equal contents in a new map; nil stays nil and empty stays empty |
| `DeepCopy.FreezeLift.DeepCopyInto` | api/v1alpha1/zz_generated.deepcopy.go:2267-2274 | equal value, new storage, original unchanged |
| `DeepCopy.CopyLift` | api/v1alpha1/zz_generated.deepcopy.go:2277-2284 | the same through a pointer |
| `DeepCopy.ChangeWindowFreeze.DeepCopyInto` | api/v1alpha1/zz_generated.deepcopy.go:1468-1499 | equal value and all storage new, however much the original shares within itself |
| `DeepCopy.CopyFreeze` | api/v1alpha1/zz_generated.deepcopy.go:1502-1509 | the copy is new throughout and equal, and the original keeps its value and its storage, which the copy does not share |
| `DeepCopy.FreezeKept` | api/v1alpha1/zz_generated.deepcopy.go:1468-1509 | a freeze keeps its value through any later writes to other storage, so copy and original never affect each other |
| `DeepCopy.CopyOverwritten` | api/v1alpha1/zz_generated.deepcopy.go:1502-1509 | overwriting the copy and all it holds leaves the original's value alone |
| `DeepCopy.OriginalOverwritten` | api/v1alpha1/zz_generated.deepcopy.go:1502-1509 | overwriting the original and all it holds leaves the copy's value alone |
| `AgentIndexCopy.CopyEntry` | api/v1alpha1/zz_generated.deepcopy.go:171-198 | equal value, its three slices new or nil as before |
| `AgentIndexCopy.FillEntries` | api/v1alpha1/zz_generated.deepcopy.go:237-240 | the map loop gives every key an equal entry in new storage |
| `AgentIndexCopy.AgentIndexStatus.DeepCopyInto` | api/v1alpha1/zz_generated.deepcopy.go:233-270 | equal value and all storage new |
| `AgentIndexCopy.CopyStatus` | api/v1alpha1/zz_generated.deepcopy.go:273-280 | the copy is new throughout and equal, and the original keeps its value and its storage, which the copy does not share |
| `AgentIndexCopy.StatusKept` | api/v1alpha1/zz_generated.deepcopy.go:233-280 | a status keeps its value through any later writes to other storage |
| `AgentIndexCopy.CopyOverwritten` | api/v1alpha1/zz_generated.deepcopy.go:273-280 | overwriting the copy and all it holds leaves the original's value alone |
| `AgentIndexCopy.OriginalOverwritten` | api/v1alpha1/zz_generated.deepcopy.go:273-280 | overwriting the original and all it holds leaves the copy's value alone |
| `WebhookPaths.SubscriptionPathExact` | cmd/kardinal-controller/subscription_webhook.go:192-215 | a path parses to a target if and only if the target is well formed and the path is its print with at most one extra trailing slash |
| `WebhookPaths.ChangeRequestPathExact` | cmd/kardinal-controller/changerequest_webhook.go:72-87 | the same for the change-request paths |
| `WebhookPaths.PrintedPaths` | cmd/kardinal-controller/subscription_webhook.go:45-68 | the two kinds of path written out, with the seven providers |
| `WebhookPaths.LimitKeyInjective` | cmd/kardinal-controller/changerequest_webhook.go:133 | slash-free namespaces never make two targets share a key |
| `UIBasePath.BaseFixed` | cmd/kardinal-controller/ui_base_path.go:17-39 | the results of parsing are exactly the well-formed bases, and each parses to itself |
| `UIBasePath.ParseBaseExactly` | cmd/kardinal-controller/ui_base_path.go:21-39 | a flag is read as a base if and only if the base is well formed and the flag is the base with slashes after it and white space around |
| `UIBasePath.BaseExactly` | cmd/kardinal-controller/ui_base_path.go:13-39 | the well-formed bases are the empty one and those of plain segments that do not start with ui or api |
| `UIBasePath.Transparent` | cmd/kardinal-controller/ui_base_path.go:41-62 | base + p reaches the inner handler as p for every UI path, unless the encoded path spells the base differently |
| `UIBasePath.UnprefixedUnchanged` | cmd/kardinal-controller/ui_base_path.go:41-66 | under every accepted base the unprefixed UI paths pass unchanged |
| `UIBasePath.RedirectEnds` | cmd/kardinal-controller/ui_base_path.go:56-60 | a redirect's target is served, never redirected |
| `UIBasePath.OthersUnchanged` | cmd/kardinal-controller/ui_base_path.go:53-66 | a request passes unchanged if and only if it is outside the base's own paths |
| `UIBasePath.RouteExactly` | cmd/kardinal-controller/ui_base_path.go:46-67 | a request is redirected, and to base/ui/, if and only if its path is the base, or the base with / or /ui; stripped or not found only under the base's UI paths |
| `UIBasePath.RoutedOnce` | cmd/kardinal-controller/ui_base_path.go:41-66 | what reaches the inner handler is routed to itself: no path is stripped or redirected twice |
| `SplitCsv.SplitCSV` | cmd/kardinal-controller/main.go:1531-1547 | the index loop equals split on commas, trim, drop empty, for every string |
| `SplitCsv.CleanedParts` | cmd/kardinal-controller/receipts.go:95-101 | no part is empty, has a comma or has white space around it |
| `SplitCsv.CleanedExactly` | cmd/kardinal-controller/main.go:1531-1547 | each part stands in its place trimmed, or is left out if and only if it is white space |
| `GoStrings.TrimSpaceOf` | cmd/kardinal-controller/main.go:1539 | trimming takes away all white space at the ends |
| `GoStrings.TrimSpaceLeaves` | cmd/kardinal-controller/main.go:1539 | and nothing else |
| `SplitCsv.SplitOfJoinedResult` | cmd/kardinal-controller/main.go:1530-1547 | splitting the comma-join of a result gives the result back |
| `SlotSpec.EveryRunKeeps` | pkg/slots/limiter.go:19-43 | on every run of acquires, releases, expiries and cancellations neither cap is exceeded, and nobody who may have a slot waits while one is free |
| `SlotSpec.OvertakenOnlyAtCap` | pkg/slots/limiter.go:28-30 | a slot goes past an earlier waiter only if that one is of another namespace, which is at its cap |
| `SlotSpec.NewcomerTakesFromNobody` | pkg/slots/limiter.go:218-226 | who finds a slot free on asking is of no waiter's namespace, and every waiter's namespace is at its cap |
| `SlotSpec.PlaceKept` | pkg/slots/limiter.go:28-37 | no step puts anyone ahead of a waiter, and it leaves the queue only for a slot of its own or when cancelled |
| `SlotSpec.ServedInTime` | pkg/slots/limiter.go:28-37 | a waiter that is not cancelled, and whose namespace is below its cap whenever it waits, has its slot once one more slot was freed than there were waiters ahead of it |
| `SlotSpec.AcquireExactly` | pkg/slots/limiter.go:203-242 | a key runs at once if and only if a slot is reserved for it, or it is not waiting and both caps have room; a claim uses up the reservation and no further slot; otherwise it waits, at the end if it did not before |
| `SlotSpec.ReleaseExactly` | pkg/slots/limiter.go:232-240 | a release ends exactly its own run, once |
| `SlotSpec.ExpireAndCancelExactly` | pkg/slots/limiter.go:189-267 | a timer ends exactly the reservation it was set for, and a cancelled key neither waits nor has a slot reserved |
| `SlotSpec.WokenExactly` | pkg/slots/limiter.go:141-187 | exactly those who leave the queue for a slot are woken, each once |
| `SlotSpec.WokenInOrder` | pkg/slots/limiter.go:141-187 | in the order they came |
| `SlotSpec.WokenRuns` | pkg/slots/limiter.go:32-37 | a woken waiter that asks again before its reservation expires runs |
| `SlotLimiter.FrontIsNext` | pkg/slots/limiter.go:84-91 | the least heap entry that is not stale belongs to the earliest waiter that may have a slot |
| `SlotLimiter.Limiter.Dispatch` | pkg/slots/limiter.go:141-167 | the heap loop, stale entries dropped, reserves the slots and names the keys to wake exactly as the one queue would, in that order |
| `SlotLimiter.Limiter.Free` | pkg/slots/limiter.go:169-178 | giving back a slot is the same dispatch on the one queue, and an empty namespace is forgotten |
| `SlotLimiter.Limiter.TryAcquire` | pkg/slots/limiter.go:203-242 | the answer is yes if and only if the key had a reservation, or was not waiting and both caps had room; then its ticket runs it, otherwise it waits; the new state is that of the one queue |
| `SlotLimiter.Limiter.Release` | pkg/slots/limiter.go:232-240 | a grant's release frees its slot once |
| `SlotLimiter.Limiter.Expire` | pkg/slots/limiter.go:189-201 | a timer that fires late, after a claim or a new reservation, changes nothing; otherwise the slot goes on |
| `SlotLimiter.Limiter.Cancel` | pkg/slots/limiter.go:244-267 | a cancelled key leaves the queue, whatever its place, or its reserved slot goes on |
| `HttpServer.EveryRunKeeps` | cmd/kardinal-controller/http_server.go:84-112 | on every interleaving: one send at most, conserved by the channel, and each outcome determined by what Serve and Shutdown returned |
| `HttpServer.SendNeverBlocks` | cmd/kardinal-controller/http_server.go:86-93 | the goroutine's send finds room whatever the caller has done |
| `HttpServer.NeverWaitsInVain` | cmd/kardinal-controller/http_server.go:108 | the last receive never waits for a result already taken |
| `HttpServer.CleanExactly` | cmd/kardinal-controller/http_server.go:96-112 | nil is returned if and only if the context ended, Shutdown succeeded and the server ended with nil or ErrServerClosed; no other serve error is swallowed |
| `AccessReview.Validate` | cmd/kardinal-controller/ui_access.go:153-168 | accepts exactly the lists of checks that are all valid |
| `AccessReview.AnswerOne` | cmd/kardinal-controller/ui_access.go:186-214 | one check's answer, failure and whether it was reviewed, as `AnswerExactly` and `RefusedExactly` describe them |
| `AccessReview.AnswerAll` | cmd/kardinal-controller/ui_access.go:179-217 | the memoised loop equals evaluating each check on its own; each distinct check is reviewed at most once and, when answered, exactly those that need it |
| `AccessReview.HandleAccess` | cmd/kardinal-controller/ui_access.go:137-218 | the whole endpoint equals its specification on every request |
| `AccessReview.AnswersAreEach` | cmd/kardinal-controller/ui_access.go:179-218 | answers are returned if and only if no check fails, one per check in order; otherwise none |
| `AccessReview.AnswerExactly` | cmd/kardinal-controller/ui_access.go:185-216 | under token review a check is allowed if and only if the reviewer allowed it in the right namespace and it is no freeze with freeze controls off; without it exactly approvals and such freezes are denied; reasons and roles likewise |
| `AccessReview.RefusedExactly` | cmd/kardinal-controller/ui_access.go:137-210 | 400 if and only if the request is malformed, 429 and 503 if and only if the first undecided review says so, answers if and only if neither |
| `BundleSpec.AdmittedExactly` | api/v1alpha1/bundle_types.go:20-31 | the twelve rules together admit exactly an unchanged spec or the first setting of `rejected` |
| `BundleSpec.AdmittedOrder` | api/v1alpha1/bundle_types.go:20-31 | admitted updates compose and cannot be undone; a spec may be rewritten as it is if and only if it is coherent |
| `BundleSpec.AtMostTwoValues` | api/v1alpha1/bundle_types.go:13-31 | along every run of updates a spec takes at most two values, the second being the first with `rejected` set |
| `BundleSpec.RejectionIsFinal` | api/v1alpha1/bundle_types.go:71-74 | once rejected, a spec never changes again |

## Left out

- KeyedLimiter.Limiter.Allow: balances are exact, where `rate.Limiter` computes them in floating point and rounds a wait down to whole nanoseconds; an infinite rate is not modelled.
- Locks: each call on a limiter is one step, as its mutex makes it; interleavings are those of whole calls. Between the two limiter calls of one request any other calls may come.
- ChangeRequestReceiver: authentication is given with the trigger, so reading the body and checking the token are part of its arrival.
- AuditPipeline.ApiAudit.Record: the record's labels, message and clipping; a write stands for the event made from it.
- RefreshPatch.Hook.RequestRefresh: the protocol takes reading and patching as one step, and polls of one object as one at a time; what a call on a stale read does is stated by `Hook.Request` only.
- SlotLimiter.Limiter.Dispatch: `container/heap` is a multiset that gives its least entry; the timers of reservations are steps that may come at any time, and waking is the list of keys returned.
- RefreshFanOut.Instances.Refresh: the list is taken to be what the store holds; the label it selects by is not modelled.
- DeepCopy.ChangeWindowFreeze.DeepCopyInto: a slice is its own array, without spare capacity or shared backing; times are values.
- The other generated copies: the same shapes again.
- Authentication, signatures, webhook events and the timing of refusals: given as the outcome of a delivery.
- The identity part of the access answer and the second reviewer: they do not affect the answers' order or number.
- The Bundle API beyond its limiter, `http.Redirect` and TLS choice: single branches over library calls.
- Promotion, gate and receipt reconcilers: this model covers the controller's own servers, the call slots and the copy code.
