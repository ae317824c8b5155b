# Verified model of the browser gateway's stateful core

This project models the parts of the gateway whose correctness depends on state that changes
over time, and proves what they keep over every run. Each component has two forms. The
specification is a set of functions on values, one for each step; the theorems are about these
functions and about runs of them. Where the source is an object or a loop that updates things in
place, a class or a method with the same fields, branches and loops is proved equal to the
specification, step by step.

| files | component |
|---|---|
| `PoolSpec`, `PoolInvariants`, `PoolChoice`, `PoolLeases`, `PoolGrants`, `PoolRuns`, `PoolWorkers`, `PoolRecords`, `PoolAcquire`, `PoolCalls`, `PoolCapacity`, `PoolBackoff`, `PoolClosing`, `BrowserPool` | the browser pool |
| `SiteGraph`, `SiteLevels`, `SiteOrder`, `CrawlProofs`, `CrawlQueues`, `CrawlOrder`, `Crawl` | the site map |
| `QueueSpec`, `QueueProofs`, `QueueSamples`, `Percentile`, `AdmissionQueue` | the admission queue |
| `OrderedMap`, `MemoryTier`, `DiskTier`, `CacheSpec`, `CacheSurvival`, `SingleFlight`, `TwoTierCache` | the cache |
| `Stability` | the wait for a stable page |
| `ProcessTree` | the memory of process trees |
| `RateLimit` | the request counter by API key |
| `DomainObservations` | the history of domains |

## The browser pool

A call in flight is a task with a program counter that names the `await` it is suspended at. An
event runs one task, or one callback of a browser, from one suspension to the next; any number of
calls interleave in any order. The clock never goes back, and where a theorem asks for a valid
configuration it means the ranges that `src/config.ts:48-62` and `152-159` enforce. The refresh
of memory always succeeds; its readings are an event of their own.

A call that is *granted* a worker does not count its context yet: `acquire` is an `async`
function, and `worker.active++` follows in a later microtask (`src/execution/pool.ts:398` or
`466`, then `330`). The grant and its count are two steps, and the model lets any step fall
between them. In the source only what runs in the same turn does: calls that await the same
memory refresh, or that start together on a fresh one (`264-265`, `383`). The witnesses below need
no more than that.

Three things one would expect of the pool do not hold of the code. For each there is a run that
breaks it and the exact condition under which a step breaks it.

* *A worker never carries more than `browserContextsPerWorker` contexts.* Calls that await one
  memory refresh all choose before the first of them counts, so any number of them can end up on
  one worker. And `launch` lists the new worker before it awaits a refresh (`457-466`): others may
  fill it meanwhile, and then its launcher takes a place as well. A step goes over the limit
  exactly when it counts a grant on a full worker, and contexts with uncounted grants go over it
  exactly when a step grants a worker that is promised to the full. Where no call chooses a worker
  that has an uncounted grant, only a launcher that returns late can do so, and the worker carries
  at most one context too many.
* *A worker that left the list is never leased again.* A worker that dies while its launcher
  awaits the refresh is still returned, and a `recycle` that awaits the same refresh as a call
  (`367-368`) may retire the worker that the call has just chosen. A new grant is on a worker off
  the list exactly when a launcher returns to a worker that left the list meanwhile, and the lease
  that it becomes is on a listed worker exactly when the worker was listed all the time since the
  grant. Beside that, a new grant is on a worker that is listed and healthy exactly unless a
  launcher returns to one that is no longer healthy: a worker that disconnected meanwhile is
  listed, and draining.
* *Workers and launches are never more than `browserPoolMax`.* `acquire` counts the whole pool,
  `replenish` only its own backend. The sum is at most `browserPoolMax + browserPoolMin`, and at
  most `browserPoolMax` when the minimum is 0 or only the default backend is asked for. A step
  goes over the maximum exactly when a refill starts while the pool is full.

What the steps do is also told by the fields that the source tests, not by the model's functions:
when a worker drains, dies and leaves the list, which worker a call gets and when it launches or is
refused, when a refill begins, and what each field of a worker's record and each counter says about
the run.

A closed pool takes no calls, but `close` does not stop what is under way. A call that was past
its check may still launch, and a launch in flight lists a healthy worker when it ends
(`src/execution/pool.ts:144-152`, `383-413`, `457`). The theorems say exactly when either
happens, and that a closed pool lists at most one worker for each call that was waiting or
launching when it was closed.

## The site map

The site is a parameter: what each URL answers, which URLs are safe and pass the filters, and
`normalizeUrl`, taken to be idempotent and to remove the fragment
(`src/security.ts:150-161`). The crawl finds breadth-first distances although it drops duplicates
only when it takes a URL off its queue, and although a link is checked against the visited URLs
in its written form and queued in its normalized form. `IsMap` says what a finished crawl
returns: which pages, and which views of which controls. At the cap every included page that is
closer than the deepest entry is listed, with the views of every listed page but the last. Below
it nothing is missing, and a crawl succeeds exactly when no page within reach is unsafe or, being
one to expand, cannot be fetched.

`SiteMap` says it exactly, order and cap included, without a queue: each level holds what the pages
of the one before lead to, in the order of those pages and of their documents, links before routes,
each URL once and where it comes first; each included page is listed with its views behind it; and
the map is the first `maxUrls` entries. The crawl returns that sequence, or fails exactly when a
page that blocks comes in this order before the map is full.

## The admission queue

The sequence of all memory readings is a parameter. The queue starts a job only if the active jobs
and the new one, each at the estimate of the new one, fit into the budget of that drain's
reading. Only submissions and ends of jobs call `drain`, so a queue can stall: a drain leaves
jobs waiting with none running exactly when the head of the queue does not fit alone. While every
drain that finds nothing running has room for the head alone this does not happen, and a job with
n jobs ahead starts within n ends; readings that never rise are one such case. The readings are
numbered, so the samples are told by them: each is what a job grew by from the reading at its own
start to the one at its end, and at least 1.

## The cache

Each operation is atomic and takes its time from one argument. The order in which the database
lists rows for an eviction is an argument too; the theorems that need it ask that it is sorted as
the query says, ties in any order. What the cache promises is told without tiers: `Latest` is the
latest put of each key not deleted or purged since. A hit is always that put. A hit from disk is
never late, and one from memory at most a minute, because a read from disk enters memory for
60000 ms whatever the expiry of its row; a run shows that the minute is reached, and every late
hit is of such an entry. In the other direction, a put is found until it expires while the keys
put or found since fit in memory beside it, each at its largest body, or while no put evicts from
disk.

## The stability wait

The events are the firings of three timers and deliveries of mutations. Timers fire when they are
due; events of one instant come in any order, and a mutation of the very instant in which the
wait ends counts only if it is handled before. The wait resolves once, at the earlier of the
maximum and the end of the first silence that begins after the observation period, which is
stated without timers as `ResolvesAt`.

## The smaller components

The walk over the process table is proved to end on every table, cyclic ones included, and to
find exactly the reachable processes. The request counter lets at most `limit` requests of a key
pass in a window and at most twice as many in any interval of a window's length, which is
reached. The history of domains holds exactly the latest part of an unbounded history. It stays
within its maximum exactly when no entry that it has to drop has the empty string as its host:
the eviction loop stops at such an entry (`src/execution/domain-observations.ts:71`), since
`!oldest` does not tell an empty host from an empty map. This is about the class: `hostname` gives
the empty host for `http://./`, but the service records a host only after a fetch of it
(`src/execution/content.ts:412-427`), and the address check before a fetch refuses a host that
resolves to no address (`src/security.ts:118-138`), as the empty one does.
A full domain never moves away from balance: its counts only approach each other, so one that
has fallen below the planner's share of four fifths stays below it until it is dropped.

## Model

| member | source | states |
|---|---|---|
| PoolInvariants.StepInv | src/execution/pool.ts:310-562 | every step of every task keeps the pool's invariant: listed workers distinct and alive, unlisted ones not healthy, launch counters equal to launches under way in all and by backend, `active` equal to open leases, no draining worker stranded |
| PoolInvariants.RunInv | src/execution/pool.ts:136-562 | every reachable state satisfies that invariant, whatever the interleaving |
| PoolInvariants.StartInv | src/execution/pool.ts:136-142 | the launches that `initialize` begins satisfy it |
| PoolChoice.SelectsLeastLoaded | src/execution/pool.ts:388-398 | `acquire` reuses a worker iff one is eligible, and then an eligible one with the fewest contexts, the earliest listed of those |
| PoolChoice.StableSortChooses | src/execution/pool.ts:388-398 | whatever stable sort on `active` one takes of the filtered list, its first element is that choice |
| PoolChoice.InsertionIsStable | src/execution/pool.ts:397 | inserting a worker before the first with no fewer contexts keeps a stable sort |
| PoolLeases.LeasesAreCounted | src/execution/pool.ts:330-366 | in every run `active` is the number of open leases |
| PoolGrants.LeasesAreGrantsCounted | src/execution/pool.ts:325-330 | a lease begins only where a call counts its own grant, on the worker granted |
| PoolGrants.PlacesExceededExactly | src/execution/pool.ts:325-330 | from a pool within its contexts, a step goes over them iff it counts a grant on a worker that is full by then |
| PoolGrants.PromisedAfter | src/execution/pool.ts:325-414 | contexts and uncounted grants of a worker grow by a grant on it, shrink by a released context, and change by no other step |
| PoolGrants.PromisesExceededExactly | src/execution/pool.ts:388-398 | from a pool whose contexts and grants are within the limit, a step goes over it iff it grants a worker that is promised to the full |
| PoolGrants.PlacesKept | src/execution/pool.ts:384-398 | a run without such a step keeps every worker within its contexts |
| PoolGrants.OrderlyGrants | src/execution/pool.ts:388-398 | unless a call chooses a worker that has an uncounted grant, a step grants a full worker iff a launcher returns to one |
| PoolGrants.OneTooManyAtMost | src/execution/pool.ts:330-466 | in a run without such choices no worker carries more than one context too many, and none does before its launcher returns |
| PoolRuns.AnyNumberTogether | src/execution/pool.ts:264-265 | for every n, a run in which n calls that awaited one refresh share a worker for one context |
| PoolRuns.PlacesCanBeExceeded | src/execution/pool.ts:457-466 | a run in which a worker for one context carries two because its launcher returned late |
| PoolGrants.GrantTargets | src/execution/pool.ts:372-414 | a new grant is on a listed healthy worker iff no launcher returned to a lost one |
| PoolGrants.GrantOffListExactly | src/execution/pool.ts:372-414 | a new grant is on a worker that left the list iff its launcher returned to it there |
| PoolGrants.ListedSinceGrant | src/execution/pool.ts:325-330 | from the grant to its count a call keeps its worker, and the worker is listed at the count iff it was listed all the time since the grant |
| PoolRuns.LostWorkerCanBeLeased | src/execution/pool.ts:450-466 | a run in which a worker that died while its launcher waited is leased |
| PoolRuns.RetiredBeforeTheCount | src/execution/pool.ts:367-368 | a run in which `recycle` retires a worker between the grant and its count, and the dead worker is leased |
| PoolLeases.ListedAreAlive | src/execution/pool.ts:503-512 | in every run listed workers are distinct and not dead |
| PoolLeases.UnlistedForGood | src/execution/pool.ts:503-512 | no step lists a worker again that left the list |
| PoolLeases.UnlistedInEveryContinuation | src/execution/pool.ts:539-562 | off the list at one point of a run, off the list and not healthy ever after |
| PoolLeases.RecycleRetiresLeaseFree | src/execution/pool.ts:539-562 | `recycle` takes only its own worker off the list, and only when no context is counted on it; a grant may be outstanding |
| PoolLeases.NoneStranded | src/execution/pool.ts:363-369 | a listed draining worker that is connected has an open lease or a released context that will run `recycle` |
| PoolLeases.JobsAreReleases | src/execution/pool.ts:363-366 | in every run a worker's count of jobs, which decides when it is worn out, is the number of its released contexts |
| PoolWorkers.RecycleRetiresExactly | src/execution/pool.ts:539-562 | `recycle` retires its worker iff no context is counted on it and it is worn out by jobs, age or memory, or no longer healthy; otherwise it stays listed, draining iff it was or is worn out |
| PoolWorkers.HealthAfter | src/execution/pool.ts:384-562 | a step makes a worker dead iff its server or the pool closes, a call finds it disconnected, or its `recycle` retires it; draining iff it is worn out but busy, reaches its failures, or disconnects; and leaves its state otherwise |
| PoolWorkers.ListAfter | src/execution/pool.ts:457-552 | a step takes exactly the workers that die off the list, keeps the order of the others, and appends the worker whose launch succeeded |
| PoolRecords.RecordsTell | src/execution/pool.ts:271-552 | in every run a record's `createdAt` is the time its launch succeeded, `failures` the number of its contexts that failed to open, `rssMb` the last reading that found it listed, and it is connected until its connection drops |
| PoolRecords.TotalsTell | src/execution/pool.ts:144-303 | in every run the memory in use is that of the last reading, and the pool is closed iff `close` was called |
| PoolRecords.CountersAfter | src/execution/pool.ts:458-552 | every launch, failed launch, crash, retirement and replacement is counted once, as what it is |
| PoolAcquire.AcquireDecides | src/execution/pool.ts:384-427 | a call that resumes leaves no listed healthy worker disconnected; it gets the usable worker with the fewest contexts, the earliest of those; if none is usable it launches iff memory, room and schedule allow, else it is refused |
| PoolAcquire.RefillsExactly | src/execution/pool.ts:517-529 | a refill launches a worker of the default profile iff the pool is open, the default backend's listed and launching workers are fewer than the minimum, and its pause is over |
| PoolAcquire.CrashRefillsExactly | src/execution/pool.ts:503-515 | and so does a crash, counted without its worker |
| PoolAcquire.CallMovesOn | src/execution/pool.ts:318-562 | each step leads its call to the suspension that follows in the source, and leaves the other calls alone |
| PoolAcquire.StartsMinimum | src/execution/pool.ts:136-142 | start-up begins the minimum of launches of the default backend and profile, and nothing else |
| PoolCalls.CallersGetWhatTheyAskFor | src/execution/pool.ts:388-413 | in every run a leased worker has the backend and profile that its call asked for when it arrived |
| PoolCalls.StepKeepsAsks | src/execution/pool.ts:372-466 | every step keeps each call waiting for, launching or using what it asked for |
| PoolCapacity.CapacityBound | src/execution/pool.ts:406-413 | in every run workers and launches are at most max + min, and at most max when min is 0 or only the default backend is asked for |
| PoolCapacity.StepCapacity | src/execution/pool.ts:406-529 | every step keeps the invariant behind that bound |
| PoolCapacity.MaximumExceededExactly | src/execution/pool.ts:517-529 | from a pool within the maximum, a step leaves it iff a refill starts while the pool is full |
| PoolCapacity.MaximumCanBeExceeded | src/execution/pool.ts:517-529 | a run that reaches max + min |
| PoolBackoff.RunBackoff | src/execution/pool.ts:463-486 | in every run the failure counter is the number of failures since the last success, the schedule is the last one's end plus its pause, and every launch waited out the pauses before it |
| PoolBackoff.FailureSchedules | src/execution/pool.ts:473-486 | the k-th failure in a row schedules the next launch min(60000, base × 2^(k-1)) later |
| PoolBackoff.DelayGrows | src/execution/pool.ts:479-486 | the pauses never shrink and never pass a minute |
| PoolBackoff.DelayDoubles | src/execution/pool.ts:479-486 | the first pause is the configured one, each further one twice the last, capped at a minute |
| PoolBackoff.LaunchesBeginOnTime | src/execution/pool.ts:420-427 | no step of any caller begins a launch before its own backend's scheduled time |
| PoolBackoff.FailuresSpanTheirPauses | src/execution/pool.ts:463-486 | any stretch of failures in a row in which none overlaps the next spans the pauses between them, whatever failed before |
| PoolClosing.ClosedPoolWindsDown | src/execution/pool.ts:144-152 | after `close` the pool stays closed and lists at most one worker for each call that was waiting or launching then |
| PoolClosing.GrowsExactly | src/execution/pool.ts:457 | a step lengthens the list iff a launch succeeds, closed or not |
| PoolClosing.ClosedLaunchesExactly | src/execution/pool.ts:376-427 | a closed pool begins a launch iff a call past its check finds nothing to reuse, and memory, room and schedule allow it |
| PoolClosing.ClosedPoolCanList | src/execution/pool.ts:144-152 | a run in which a closed pool lists a healthy worker |
| BrowserPools.BrowserPool.constructor | src/execution/pool.ts:136-140 | a new pool starts its minimum of launches and satisfies the invariant, which every method below keeps |
| BrowserPools.BrowserPool.Arrive | src/execution/pool.ts:372-383 | the object's state becomes that of the step: a closed pool refuses the call |
| BrowserPools.BrowserPool.Resume | src/execution/pool.ts:384-427 | `acquire` after the refresh: disconnected workers are marked dead, then a grant, a refusal or the start of a launch |
| BrowserPools.BrowserPool.Filter | src/execution/pool.ts:388-396 | the loop answers the eligible workers in list order |
| BrowserPools.BrowserPool.Sort | src/execution/pool.ts:397 | the sort on `active` is stable |
| BrowserPools.BrowserPool.Choose | src/execution/pool.ts:388-398 | filter, stable sort and first element answer the specified choice |
| BrowserPools.BrowserPool.CountBackend | src/execution/pool.ts:523 | the loop counts the listed workers of a backend |
| BrowserPools.BrowserPool.LaunchSucceeded | src/execution/pool.ts:434-465 | the new worker is listed healthy and the backend's failures are forgotten |
| BrowserPools.BrowserPool.LaunchFailed | src/execution/pool.ts:467-494 | the failure is counted, the next launch scheduled, the launch counters lowered |
| BrowserPools.BrowserPool.Settled | src/execution/pool.ts:465-494 | the launch returns: its caller is granted the worker as it is now, a refill counts a replacement |
| BrowserPools.BrowserPool.Occupied | src/execution/pool.ts:330 | the caller counts its context on the worker it was granted, whatever has become of it |
| BrowserPools.BrowserPool.ContextOpened | src/execution/pool.ts:331-362 | an opened context changes no worker |
| BrowserPools.BrowserPool.ContextFailed | src/execution/pool.ts:350-353 | a rejected context counts against its worker, which drains at the limit |
| BrowserPools.BrowserPool.Released | src/execution/pool.ts:363-366 | a place is freed and a job counted |
| BrowserPools.BrowserPool.Recycled | src/execution/pool.ts:539-552 | a worn or draining worker without contexts is retired, even one that already died |
| BrowserPools.BrowserPool.Refilled | src/execution/pool.ts:517-529 | a refill starts only below the backend's own minimum and after its pause |
| BrowserPools.BrowserPool.MarkDead | src/execution/pool.ts:503-515 | a worker not yet dead is counted as a crash, leaves the list and is replaced |
| BrowserPools.BrowserPool.ServerClosed | src/execution/pool.ts:450 | the server's `close` event marks the worker dead |
| BrowserPools.BrowserPool.ConnectionDropped | src/execution/pool.ts:385 | a dropped connection changes only what `isConnected` answers |
| BrowserPools.BrowserPool.Disconnect | src/execution/pool.ts:451-456 | a healthy worker that disconnects drains |
| BrowserPools.BrowserPool.StoreReadings | src/execution/pool.ts:271-303 | a refresh writes the readings of listed workers |
| BrowserPools.BrowserPool.Shutdown | src/execution/pool.ts:144-152 | closing empties the list and leaves its workers dead |
| Crawl.MapSite | src/automation/map.ts:34-131 | with 100 URLs and depth 2 by default and 1000 and 10 at most, the answer is the site map or, in its order, its part that matches the search; it fails iff a page blocks before the map is full |
| Crawl.CrawlSite | src/automation/map.ts:42-125 | from a normalized URL the loop ends; it returns exactly the first `maxUrls` entries in the order of the levels, or fails iff a page blocks before that, saying why; the result is a map: distinct, pages safe, included and at their shortest distance, views behind the page that shows them, complete up to the deepest level and below the cap throughout |
| SiteOrder.LevelInOrder | src/automation/map.ts:67-112 | the next level holds exactly the new pages that a link or route within the origin leads to, in the order of the first place that leads to each: by page, then by place, links before routes; and with that place's source |
| SiteOrder.ViewsInOrder | src/automation/map.ts:87-124 | the views of a page come in the order of the first safe control that shows each, once, and none is missing |
| SiteOrder.PageStandsAt | src/automation/map.ts:57-123 | each included page is listed behind the entries of the pages before it, and followed by its views |
| CrawlOrder.VisitNext | src/automation/map.ts:45-112 | without known URLs and repetitions the queue is the rest of the level and what its visited pages lead to; visiting the front keeps that |
| CrawlQueues.LinksAreQueued | src/automation/map.ts:67-86 | every followed link that is new in its written form is queued one level deeper |
| CrawlOrder.QueuedFresh | src/automation/map.ts:72-80 | comparing links before they are normalized drops only pages that would be dropped later |
| CrawlOrder.AllVisited | src/automation/map.ts:45-46 | when the queue is empty every page of every level was visited |
| CrawlProofs.FrontIsShortest | src/automation/map.ts:47-50 | a new URL at the front of the queue is at its shortest distance although duplicates are dropped late |
| CrawlProofs.CloserIsVisited | src/automation/map.ts:47-66 | whatever is closer to the seed than the whole queue has been visited |
| Crawl.PushLinks | src/automation/map.ts:67-86 | the links within the origin that are not visited in their written form are queued one deeper, in document order, and nothing else |
| Crawl.PushControls | src/automation/map.ts:87-124 | routes are queued one deeper and views listed in document order, up to the cap; every added view is offered by a safe control with a valid id and is new; below the cap every offered view is keyed and every route queued |
| CrawlProofs.PageCovered | src/automation/map.ts:67-112 | after both selectors every successor of the page is visited or queued, though links are compared before they are normalized |
| CrawlProofs.AllViewsListed | src/automation/map.ts:111-122 | when the views of the current page are keyed, every offered view of every expanded page is listed |
| CrawlProofs.NothingBlocks | src/automation/map.ts:47-66 | a crawl that ends below its cap met nothing unsafe or unfetchable within reach |
| Crawl.KeptExactly | src/automation/map.ts:126-130 | the search keeps exactly the matching results |
| Crawl.KeptInOrder | src/automation/map.ts:126-130 | and keeps them distinct and in order of depth |
| Crawl.KeptPlaces | src/automation/map.ts:126-130 | and leaves them in the order in which they stood |
| Percentile.P90IsNearestRank | src/queue.ts:41-45 | `p90` is the nearest-rank 90th percentile of its samples |
| Percentile.NearestRankIsUnique | src/queue.ts:41-45 | there is one such value |
| Percentile.P90IgnoresOrder | src/queue.ts:41-45 | it depends on the multiset of samples only |
| Percentile.RankInRange | src/queue.ts:44 | the index is in range and the rank is the ceiling of nine tenths |
| QueueProofs.RunInv | src/queue.ts:59-185 | the queue's invariant holds over every run |
| QueueProofs.QueueAccounts | src/queue.ts:63-110 | admitted jobs are the started ones in start order, then the pending; attempts are admissions and refusals; a started job is running or has ended, once, and the running ones are the active slots; the bounds on active, pending and the alert flag hold |
| QueueSamples.EstimatesOverRuns | src/queue.ts:28-155 | in every run a workload's estimate is the 90th percentile of what its last 128 resolved jobs grew by, each from the reading of its own start to that of its end and at least 1; before the first it is the default |
| QueueSamples.RunNotes | src/queue.ts:98-102 | in every run a working job carries the reading that was taken for its own start |
| QueueSamples.ReadingsTaken | src/queue.ts:63-172 | one reading is taken for each submission, drain, start and resolved job |
| QueueSamples.RefusedExactly | src/queue.ts:63-110 | a call is refused for memory iff the reading is at the hard limit or the estimate does not fit under the reserve, else for the queue iff that is full, and counted as what it is; otherwise it is admitted last |
| QueueSamples.AlertedExactly | src/queue.ts:86-159 | the alert is raised by an admission while others wait or all slots are taken, and lowered by the end of a job while nobody waits |
| QueueProofs.SlotsMean | src/queue.ts:163-167 | being below the floored quotient means room for one more estimate |
| QueueProofs.CanStartMeans | src/queue.ts:160-167 | the head is started iff a slot is free and one more of its kind stays within the budget |
| QueueProofs.DrainLoopStarts | src/queue.ts:157-185 | a drain takes a prefix of the queue, in order, each fitting beside those active when it started |
| QueueProofs.DrainLoopStops | src/queue.ts:160-167 | it stops only at the concurrency bound or at a job that does not fit |
| QueueProofs.DrainStallsExactly | src/queue.ts:157-185 | a drain leaves jobs waiting with none running iff the head does not fit alone |
| QueueProofs.StepStallsExactly | src/queue.ts:87-185 | a step leaves the queue stalled iff its drain finds no room for the head alone, or it drains nothing and the queue was stalled |
| QueueProofs.NobodyWaitsWhileRoom | src/queue.ts:157-185 | in every run whose idle drains find room for the head alone, waiting jobs have a running one and the i-th admitted job has started after i ends |
| QueueProofs.NobodyWaitsForever | src/queue.ts:157-185 | the same without that condition, while readings never rise: waiting jobs have a running one and the i-th admitted job has started after i ends |
| QueueProofs.QueueCanStall | src/queue.ts:157-185 | with rising readings a run ends with a waiting job and nothing running |
| AdmissionQueues.AdmissionQueue.Run | src/queue.ts:59-110 | the object's `run` is the specified submission |
| AdmissionQueues.AdmissionQueue.Refuse | src/queue.ts:63-85 | the two refusals, in order |
| AdmissionQueues.AdmissionQueue.Drain | src/queue.ts:157-185 | its loop is the specified drain |
| AdmissionQueues.AdmissionQueue.RecordSample | src/queue.ts:150-155 | push and cut to 128 |
| AdmissionQueues.AdmissionQueue.JobResolved | src/queue.ts:98-102 | the growth, at least 1, becomes a sample |
| AdmissionQueues.AdmissionQueue.JobCompleted | src/queue.ts:173-177 | a slot is freed and the queue drained |
| AdmissionQueues.AdmissionQueue.JobFailed | src/queue.ts:178-182 | the same after a rejection, without a sample |
| MemoryTier.PutKeepsLongestSuffix | src/cache.ts:78-90 | an insert keeps the byte counter exact and leaves exactly the longest suffix of the use order that fits |
| MemoryTier.PutIsFound | src/cache.ts:78-90 | an entry that fits alone is found after its insert; a larger one empties the tier |
| DiskTier.EvictRemovesShortestPrefix | src/storage/cache-store.ts:100-118 | an eviction removes exactly the shortest prefix of the database's order that leaves at most three quarters of the limit |
| DiskTier.PutStaysWithinLimit | src/storage/cache-store.ts:38-62 | after every put the total is within the limit |
| DiskTier.EvictionsAreApart | src/storage/cache-store.ts:100-118 | whatever happens between two evictions, more than a quarter of the limit was put |
| CacheSpec.HitsAreTruthful | src/cache.ts:16-60 | over every history a hit returns the latest put not deleted or purged, from disk by its expiry, from memory at most a minute later |
| CacheSpec.PutThenGet | src/cache.ts:16-50 | what was just put is found until it expires if it fits in memory or stayed on disk |
| CacheSpec.ReadsExactly | src/cache.ts:16-37 | a read finds an entry in time in memory, else a row in time that can be read, else nothing, and then neither tier has the key |
| CacheSpec.RowsAfterRead | src/storage/cache-store.ts:12-37 | a hit in memory leaves the rows; a read from disk touches the row it finds, or deletes it, and leaves the others |
| CacheSpec.TakesExactly | src/cache.ts:51-60 | a delete takes the key out of both tiers and nothing else, a purge the matching rows and all of memory |
| CacheSurvival.FoundWhileItFits | src/cache.ts:24-31 | over every history a put is found in memory until it expires, while the distinct keys put or found since, each at its largest body, fit in memory beside it |
| CacheSurvival.HeldWhileItFits | src/cache.ts:78-94 | the entry stays in memory that long, with only keys used since behind it, each once |
| CacheSurvival.FoundWhileKept | src/storage/cache-store.ts:12-37 | over every history a put is found until it expires while no put evicts |
| CacheSurvival.MemoryExpiresExactly | src/cache.ts:33-49 | over every history an entry in memory expires with its put, or a minute after the last read of its row since |
| CacheSurvival.LateHitsWerePromoted | src/cache.ts:33-36 | a hit after the expiry is of an entry read from disk before the expiry and at most a minute ago |
| CacheSpec.SlackIsReached | src/cache.ts:33-36 | a run with a hit exactly a minute after the expiry |
| CacheSpec.RunAgrees | src/cache.ts:16-60 | over every history both tiers hold only latest puts, and the counter is exact |
| CacheSpec.MemoryIsInUseOrder | src/cache.ts:24-31 | over every history the memory tier lists its entries by last put or hit |
| CacheSpec.RowsRememberTheirUse | src/storage/cache-store.ts:24-61 | over every history a row carries the time of its key's last put or read from disk, by which evictions order it |
| CacheSpec.TiersStayWithinLimits | src/storage/cache-store.ts:38-62 | over every history both tiers stay within their bytes and the table has one row a key |
| TwoTierCaches.PurgeByKey | src/storage/cache-store.ts:69-81 | deleting the selected keys one by one removes exactly the matching rows |
| TwoTierCaches.CacheStore.Get | src/storage/cache-store.ts:12-37 | a readable row in time is returned and touched, any other one deleted |
| TwoTierCaches.CacheStore.Put | src/storage/cache-store.ts:38-62 | the row replaces its key's, then the eviction runs |
| TwoTierCaches.CacheStore.Remove | src/storage/cache-store.ts:63-68 | the key's row is gone |
| TwoTierCaches.CacheStore.Purge | src/storage/cache-store.ts:69-81 | the matching rows are gone and counted |
| TwoTierCaches.CacheStore.EvictRows | src/storage/cache-store.ts:100-118 | the loop with its early return is the specified eviction |
| TwoTierCaches.Cache.Get | src/cache.ts:16-37 | memory first, an expired entry dropped, then disk with promotion |
| TwoTierCaches.Cache.Put | src/cache.ts:38-50 | both tiers are written |
| TwoTierCaches.Cache.Delete | src/cache.ts:51-55 | both tiers forget the key |
| TwoTierCaches.Cache.Purge | src/cache.ts:56-60 | memory is cleared and the matching rows are deleted |
| TwoTierCaches.Cache.PutInMemory | src/cache.ts:78-90 | the loop is the specified insert |
| TwoTierCaches.Cache.Coalesce | src/cache.ts:71-77 | a caller joins the task in flight, or starts one |
| TwoTierCaches.Cache.Settled | src/cache.ts:74 | the end of a task takes its key off the table |
| SingleFlight.RunInv | src/cache.ts:71-77 | in every run at most one task runs for a key, the one listed |
| SingleFlight.SharedExactlyUntilSettled | src/cache.ts:71-77 | two callers of a key share a task iff it has not settled between their calls |
| Stability.Effective | src/execution/content.ts:114-116 | a caller's own times are used, 600, 4000 and 0 ms by default; only the maximum is raised to the quiet period, and the observation cut to the maximum |
| Stability.ResolvesAtFirstSilence | src/execution/content.ts:117-170 | a wait that is over resolved once, at the earlier of the maximum and the end of the first silence after the observation, whatever changes follow; no timer is armed and no event can come |
| Stability.OneResolution | src/execution/content.ts:126-167 | that names one time |
| Stability.SameChangesSameTime | src/execution/content.ts:126-167 | runs with the same changes end at the same time, in whatever order events of one instant came |
| Stability.AlwaysEnds | src/execution/content.ts:161-167 | until then some timer can fire within the maximum, and firings are bounded by the changes |
| Stability.ChangesAreMoves | src/execution/content.ts:141-155 | a delivery is a change iff one of its child-list records adds or removes an element or a node with at least 80 characters of text |
| Stability.MovesRestart | src/execution/content.ts:135-155 | such a delivery restarts the quiet period, any other one changes no timer |
| Stability.EndsQuietAfterMoves | src/execution/content.ts:135-167 | a wait that ends before its maximum ends a quiet period or more after every change it handled |
| Stability.WaitsAsAsked | src/execution/content.ts:173-185 | a fetch waits as its caller says, and else by default for stability, with the default times cut to its budget |
| Stability.DefaultWaitFitsBudget | src/execution/content.ts:173-185 | the default wait ends within the fetch's own budget |
| Stability.StabilityObserver.constructor | src/execution/content.ts:121-167 | the initial timers |
| Stability.StabilityObserver.OnMutations | src/execution/content.ts:141-155 | a meaningful change restarts the quiet period |
| Stability.StabilityObserver.OnQuiet | src/execution/content.ts:137-139 | the end of the quiet period finishes only after the observation |
| Stability.StabilityObserver.OnObservation | src/execution/content.ts:163-166 | the end of the observation restarts the quiet period |
| Stability.StabilityObserver.OnMaximum | src/execution/content.ts:161 | the maximum finishes |
| Stability.StabilityObserver.Resolve | src/execution/content.ts:126-134 | finishing clears all timers and resolves at most once |
| ProcessTree.ChildrenOf | src/process-memory.ts:185-190 | the table of children is the parent table turned around |
| ProcessTree.Descendants | src/process-memory.ts:194-205 | the walk ends on every table and lists exactly what the root reaches, each process once |
| ProcessTree.SumIgnoresOrder | src/process-memory.ts:206-211 | count and sum do not depend on the order of the walk |
| ProcessTree.Measure | src/process-memory.ts:183-213 | every positive root is measured; its tree can be listed, and however it is, each process counts once |
| ProcessTree.TreesAreNestedOrDisjoint | src/process-memory.ts:193-205 | with one parent a process, trees share a process iff one root reaches the other |
| ProcessTree.SeparateTreesAdd | src/process-memory.ts:206-211 | the measurements of roots that do not reach each other add up without counting a process twice |
| RateLimit.RateLimiter.OnRequest | src/server/lifecycle.ts:138-151 | the window and the count of the key are updated and compared with its policy's limit, 600 without one |
| RateLimit.CounterTells | src/server/lifecycle.ts:139-144 | a key's counter is the opener and the length of the last window of its own requests |
| RateLimit.AdmittedExactly | src/server/lifecycle.ts:138-151 | a request passes iff fewer than the limit of its key came before it in its window |
| RateLimit.WindowPasses | src/server/lifecycle.ts:141-145 | at most the limit passes in a window, on any clock |
| RateLimit.AtMostTwice | src/server/lifecycle.ts:138-151 | on a monotone clock at most twice the limit passes in an interval of 60000 ms |
| RateLimit.AdmittedAtMostTwice | src/server/lifecycle.ts:138-151 | the same in traces of all keys |
| RateLimit.TwiceIsReached | src/server/lifecycle.ts:138-151 | for every key and limit a trace of requests in which twice the limit is admitted |
| DomainObservations.RunInv | src/execution/domain-observations.ts:44-68 | over every run counts are not negative and sum up to at most the cap |
| DomainObservations.RunHoldsLatest | src/execution/domain-observations.ts:66-73 | over every run the table is exactly the latest part of the unbounded history |
| DomainObservations.RunStaysWithin | src/execution/domain-observations.ts:69-73 | over every run without empty hosts it is within its maximum |
| DomainObservations.SizeBoundExactly | src/execution/domain-observations.ts:69-73 | a record leaves at most the maximum iff no entry it has to drop has an empty host |
| DomainObservations.GrowsBehindEmptyHost | src/execution/domain-observations.ts:69-73 | behind such an entry a full table grows with every new host |
| DomainObservations.SizeBoundCanFail | src/execution/domain-observations.ts:69-73 | two records that break a maximum of one |
| DomainObservations.CostlyMeans | src/execution/planner.ts:73-77 | the share rounded to two decimals is four fifths iff shells are at least 159 of 200 samples |
| DomainObservations.RecordMoves | src/execution/domain-observations.ts:55-66 | below the cap a record raises its own count; at the cap it moves one sample from the larger count to the smaller, or none |
| DomainObservations.TalliesUntilFull | src/execution/domain-observations.ts:55-66 | over every run, until a domain is full its counts are tallies of its records |
| DomainObservations.FirstRecordCounts | src/execution/domain-observations.ts:50-67 | the first record of a domain counts one sample of its kind |
| DomainObservations.AnswersExactly | src/execution/domain-observations.ts:28-42 | in every run a read answers iff the domain is held and was recorded at most `ttlMs` ago: all its samples, the share of shells to the nearest hundredth, the time of the last record |
| DomainObservations.FullStays | src/execution/domain-observations.ts:60-65 | a full domain stays full, its gap never grows, balance is absorbing |
| DomainObservations.UnderTheShareUntilDropped | src/execution/domain-observations.ts:28-74 | over every run a full domain under the planner's share stays under it until it is dropped |
| DomainObservations.DomainObservationStore.Get | src/execution/domain-observations.ts:28-42 | an entry out of its time is dropped, another one observed |
| DomainObservations.DomainObservationStore.Record | src/execution/domain-observations.ts:44-74 | both loops are the specified trimming and eviction |

## Left out

- BrowserPools.BrowserPool.Occupied: any step may fall between a grant and its count, where the source has only microtasks there; the bounds on what can go wrong in between are therefore those of the larger set of runs.
- BrowserPools.BrowserPool.StoreReadings: the refresh of memory never fails and its coalescing and one-second cache are not modelled; readings are an event with arbitrary values.
- BrowserPools.BrowserPool.LaunchSucceeded: launching, connecting and closing browsers are the events of success, failure, close and disconnect.
- The browser pool's counters of launches, failures, crashes, recyclings and replacements are kept for the pool as a whole; their copies by backend, `stats`, `workerSnapshots` and `browserAdmission` only read.
- BrowserPools.BrowserPool.Arrive: `initialize` after `close`, which opens the pool again, is not modelled.
- Crawl.CrawlSite: parsing of HTML and URLs, glob patterns and the pattern of unsafe labels are parameters; labels and the `control` field of results are not carried.
- Crawl.MapSite: lower-casing in the search is a parameter.
- AdmissionQueues.AdmissionQueue.Run: a job is assumed not to call `run` before its first suspension; results, waiting times and the alert callback are not modelled.
- Percentile.P90IsNearestRank: over real numbers, where `Math.ceil(n * 0.9)` is exact; in floating point it is exact up to 128 samples.
- TwoTierCaches.Cache.Get: operations are atomic; a read from disk that overlaps a put or delete of the same key is not modelled.
- TwoTierCaches.CacheStore.Put: bodies are part of their rows; files, paths derived from keys, JSON and the LIKE pattern are not modelled, and a body that cannot be read is an argument of the read.
- TwoTierCaches.Cache.Purge: the absent and the empty value, which both purge everything, are one case.
- TwoTierCaches.Cache.Coalesce: a factory that throws before it returns a promise leaves no trace and is not modelled.
- Stability.StabilityObserver.OnMutations: timers are punctual; the observer's delivery of records in batches is the event.
- The other waits of `waitForBrowserReadiness` and the challenge loop delegate to the browser.
- ProcessTree.Measure: reading the process table and the resident sizes, and the container's own limits, are parameters or left out.
- RateLimit.RateLimiter.OnRequest: hashing of tokens, routes and the daily quota are left out.
- DomainObservations.DomainObservationStore.Record: hosts are parameters; parsing a URL into its host is not modelled, and ratios are exact where the source uses floating point.
- Sessions, storage of other records, HTTP routes, planning tables, content extraction and security policy are not modelled.
