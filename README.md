# cf-hoover snapshot client, modelled in Dafny

cf-hoover collects inventory from a set of "butlers". Each butler is the
snapshot service of one Cloud Foundry foundation. The hoover is configured with
a registry that maps foundation names to butler addresses. `SnapshotClient`
asks every butler for its detail snapshot or its summary snapshot, and merges
what comes back:

- the applications, service instances and application relationships of all
  foundations, each record stamped with the name of its foundation;
- the user accounts and service accounts of all foundations, as one sorted set
  without duplicates each;
- the application counts and service-instance counts of all foundations, each
  reduced to one value by the counts type's `aggregate`.

A fetch that times out, or that gets an HTTP error response, counts as an empty
snapshot. Any other error is not recovered and ends the aggregation.

The model is pure, as the source is: a Reactor pipeline with no mutable state.

- `Domain` (`domain.dfy`) holds the registry, the settings and the snapshot
  documents.
- `Gateway` (`gateway.dfy`) fetches one document from one butler.
- `SnapshotClient` (`snapshot_client.dfy`) holds the fan-out, the seven
  aggregators and the two assemblers.
- `StringOrder` (`string_order.dfy`) models the `TreeSet<String>` that collects
  the accounts.
- `CountsReducer` (`counts_reducer.dfy`) is a category-wise sum, which is what
  `aggregate` is documented to compute.

The network is a parameter. A `Network<D>` gives, for a butler name and a
requested URI, the `Reply` that request gets: a body and its latency. The body
is a document, a successful response without a body, an HTTP error status, or
another failure. A response without a body makes the decoded `Mono` complete
empty: in the detail aggregations that butler then adds nothing, and in the
counts aggregations it adds no entry to the list that is reduced. Each round of fetches
has its own `Network`. A detail snapshot runs five rounds and a summary
snapshot runs two. The same butler can therefore answer differently each time
it is asked, as it can in the source, where every sub-aggregation fetches again.

Reactor's `flatMap` merges the per-butler streams in whatever order they
arrive. The model concatenates them in registry order, which is one order the
merge can produce. The properties below are stated so that they hold for every
order:

- which foundation each record carries;
- the size and the multiset of each list;
- each foundation's records, in their own order;
- the account sets;
- the reduced counts, under the sum.

The exact interleaving of the merged lists is the one thing that depends on
the order.

### Where the documented intent and the code differ

The documented intent is that every transport or decoding error degrades to an
empty document, so that an aggregation never fails. The code
(`SnapshotClient.java:91-98`) recovers only from the timeout and from
`WebClientResponseException`, the exception raised for HTTP error responses.
Anything else propagates and fails the whole `Mono`: a refused connection, an
undecodable body, and so on. The model follows the code. `Body.OtherFailure`
stands for these errors, and every aggregator returns `Failure` when a butler's
reply is one of them (`Fatal`).

## Model

| member | source | states |
|---|---|---|
| `Gateway.Retrieve` | src/main/java/io/pivotal/cfapp/client/SnapshotClient.java:90-98 | a reply fails the fetch exactly when it arrives in time and is neither a document, nor an empty body, nor an error status, and then carries its error message; a timely reply without a body completes with nothing, and only such a reply does; a late reply or an error status yields the fallback; a timely document is returned unchanged |
| `Gateway.ObtainSnapshotDetail` | src/main/java/io/pivotal/cfapp/client/SnapshotClient.java:84-99 | the reply consulted is the one for `baseUrl + "/snapshot/detail"`; a timeout or error status yields the empty detail document; a timely document is returned as it is; a timely empty body completes with nothing; it fails only on another error |
| `Gateway.ObtainSnapshotSummary` | src/main/java/io/pivotal/cfapp/client/SnapshotClient.java:101-116 | the same for `baseUrl + "/snapshot/summary"`, with the empty summary (all counts zero) as the fallback |
| `Gateway.DetailUriShape` | src/main/java/io/pivotal/cfapp/client/SnapshotClient.java:85 | a butler's detail URI is exactly `https://`, then the address, then `/snapshot/detail` |
| `Gateway.SummaryUriShape` | src/main/java/io/pivotal/cfapp/client/SnapshotClient.java:102 | a butler's summary URI is exactly `https://`, then the address, then `/snapshot/summary` |
| `SnapshotClient.FetchDetail` | src/main/java/io/pivotal/cfapp/client/SnapshotClient.java:60 | a butler's detail fetch fails exactly when its reply is fatal; it degrades to the empty document on a timeout or an error status; it yields the butler's document when that arrives in time; it completes with nothing exactly when the butler answers in time without a body |
| `SnapshotClient.FanOut` | src/main/java/io/pivotal/cfapp/client/SnapshotClient.java:58-63 | the merge succeeds exactly when no butler's reply is fatal; on failure, the error is the message of some butler's fatal reply |
| `SnapshotClient.FanOutMembers` | src/main/java/io/pivotal/cfapp/client/SnapshotClient.java:59-63 | an element is in the merged collection exactly when some registered butler contributed it |
| `SnapshotClient.FanOutCounts` | src/main/java/io/pivotal/cfapp/client/SnapshotClient.java:59-63 | as a multiset, the merged collection is the union of the butlers' contributions; its length is the sum of their lengths |
| `SnapshotClient.FanOutTagged` | src/main/java/io/pivotal/cfapp/client/SnapshotClient.java:58-62 | when every contribution is stamped with its butler's name, every merged element carries a registry key |
| `SnapshotClient.FanOutPerSource` | src/main/java/io/pivotal/cfapp/client/SnapshotClient.java:59-63 | with unique registry keys, the merged elements stamped with one butler's name are exactly that butler's contribution, in its original order |
| `SnapshotClient.FanOutOfNothing` | src/main/java/io/pivotal/cfapp/client/SnapshotClient.java:58-63 | when every butler returns nothing or an empty document (in time, or by timing out or answering with an error status), the merge succeeds with nothing in it |
| `SnapshotClient.UnreachableReturnsNothing` | src/main/java/io/pivotal/cfapp/client/SnapshotClient.java:91-97 | a butler whose detail request times out or gets an error status completes with the empty document, so it returns nothing |
| `SnapshotClient.ApplicationsOf` | src/main/java/io/pivotal/cfapp/client/SnapshotClient.java:61-62 | one record per application; each keeps all its other fields and gets the butler's name as foundation |
| `SnapshotClient.ServiceInstancesOf` | src/main/java/io/pivotal/cfapp/client/SnapshotClient.java:70-71 | the same for service instances |
| `SnapshotClient.RelationshipsOf` | src/main/java/io/pivotal/cfapp/client/SnapshotClient.java:79-80 | the same for application relationships |
| `SnapshotClient.AssembleApplicationDetail` | src/main/java/io/pivotal/cfapp/client/SnapshotClient.java:57-64 | succeeds exactly when no detail reply is fatal; every application's foundation is a registry key; the list's multiset and length are those of the butlers' stamped applications; with unique keys, each foundation's applications appear in their original order |
| `SnapshotClient.AssembleServiceInstanceDetail` | src/main/java/io/pivotal/cfapp/client/SnapshotClient.java:66-73 | the same for service instances |
| `SnapshotClient.AssembleApplicationRelationships` | src/main/java/io/pivotal/cfapp/client/SnapshotClient.java:75-82 | the same for application relationships |
| `SnapshotClient.AssembleUserAccounts` | src/main/java/io/pivotal/cfapp/client/SnapshotClient.java:137-143 | succeeds exactly when no detail reply is fatal; the result is strictly ascending (sorted, no duplicates); it holds exactly the union of the butlers' user accounts |
| `SnapshotClient.AssembleServiceAccounts` | src/main/java/io/pivotal/cfapp/client/SnapshotClient.java:145-151 | the same for service accounts |
| `SnapshotClient.UserAccountsIgnoreArrivalOrder` | src/main/java/io/pivotal/cfapp/client/SnapshotClient.java:139-142 | the accounts collected are the same whatever order, and however many repeats, the butlers' accounts arrive in |
| `SnapshotClient.ServiceAccountsIgnoreArrivalOrder` | src/main/java/io/pivotal/cfapp/client/SnapshotClient.java:147-150 | the same for service accounts |
| `SnapshotClient.OneFoundationTimesOut` | src/main/java/io/pivotal/cfapp/client/SnapshotClient.java:57-64 | with "prod" returning three applications and "stage" timing out, the merged list has exactly three entries, all stamped "prod" |
| `SnapshotClient.AssembleSnapshotDetail` | src/main/java/io/pivotal/cfapp/client/SnapshotClient.java:118-129 | succeeds exactly when all five aggregations succeed, and then its five fields are their results; otherwise it fails with the error of the first failing one, in the source's order |
| `SnapshotClient.SnapshotDetailOfEmptySources` | src/main/java/io/pivotal/cfapp/client/SnapshotClient.java:118-129 | when in every round every butler returns nothing or an empty document, whether in time, by timing out or with an error status, the detail snapshot is the empty document and not an error |
| `SnapshotClient.FetchSummary` | src/main/java/io/pivotal/cfapp/client/SnapshotClient.java:156 | a butler's summary fetch fails exactly when its reply is fatal; it degrades to the all-zero summary on a timeout or an error status; it yields the butler's summary when that arrives in time; it completes with nothing exactly when the butler answers in time without a body |
| `SnapshotClient.Emitters` | src/main/java/io/pivotal/cfapp/client/SnapshotClient.java:156 | every registered butler except those that answer in time without a body, in registry order; when the round succeeds, exactly the butlers whose fetch emits a summary |
| `SnapshotClient.EmittersOccurrences` | src/main/java/io/pivotal/cfapp/client/SnapshotClient.java:156 | a butler that does not answer in time without a body appears among the emitters as often as in the registry, and a silent one not at all |
| `SnapshotClient.EveryButlerEmits` | src/main/java/io/pivotal/cfapp/client/SnapshotClient.java:155-158 | when no butler answers in time without a body, every butler emits a summary, in registry order |
| `SnapshotClient.CollectCounts` | src/main/java/io/pivotal/cfapp/client/SnapshotClient.java:155-158 | succeeds exactly when no summary reply is fatal; it then has exactly one entry per butler that emits a summary, namely the selected counts of the summary that butler's fetch emitted; on failure the error is some butler's fatal reply |
| `SnapshotClient.AssembleApplicationCounts` | src/main/java/io/pivotal/cfapp/client/SnapshotClient.java:153-160 | succeeds exactly when no summary reply is fatal, and then is `aggregate` applied to one application-counts value per butler that emits a summary (every butler when none answers in time without a body, by `EveryButlerEmits`) |
| `SnapshotClient.AssembleServiceInstanceCounts` | src/main/java/io/pivotal/cfapp/client/SnapshotClient.java:162-169 | succeeds exactly when no summary reply is fatal, and then is `aggregate` applied to one service-instance-counts value per butler that emits a summary (every butler when none answers in time without a body) |
| `SnapshotClient.AssembleSnapshotSummary` | src/main/java/io/pivotal/cfapp/client/SnapshotClient.java:131-135 | succeeds exactly when both counts aggregations succeed, and then holds the application counts and the service-instance counts; otherwise it fails with the first error |
| `SnapshotClient.ApplicationCountsIgnoreArrivalOrder` | src/main/java/io/pivotal/cfapp/client/SnapshotClient.java:155-159 | with the category-wise sum as `aggregate`, any arrival order of the per-butler counts gives the same total |
| `SnapshotClient.ServiceInstanceCountsIgnoreArrivalOrder` | src/main/java/io/pivotal/cfapp/client/SnapshotClient.java:164-168 | the same for service-instance counts |
| `SnapshotClient.UnreachableReturnsNoSummary` | src/main/java/io/pivotal/cfapp/client/SnapshotClient.java:108-114 | a butler whose summary request times out or gets an error status completes with the all-zero summary, so it returns no summary |
| `SnapshotClient.EmptySourcesCountNothing` | src/main/java/io/pivotal/cfapp/client/SnapshotClient.java:155-157 | butlers that return nothing or the empty summary contribute only empty counts |
| `SnapshotClient.SnapshotSummaryOfEmptySources` | src/main/java/io/pivotal/cfapp/client/SnapshotClient.java:131-135 | when in both rounds every butler returns nothing or the empty summary, whether in time, by timing out or with an error status, the summed summary is all zeros and not an error |
| `SnapshotClient.DefaultSettingsYieldEmptySnapshots` | src/main/java/io/pivotal/cfapp/config/HooverSettings.java:17-19 | with the default settings (no butlers), both snapshots are empty and nothing fails |
| `StringOrder.Insert` | src/main/java/io/pivotal/cfapp/client/SnapshotClient.java:142 | adding a string to a TreeSet keeps it strictly ascending and adds exactly that string |
| `StringOrder.Collect` | src/main/java/io/pivotal/cfapp/client/SnapshotClient.java:142 | collecting into a TreeSet gives a strictly ascending sequence holding exactly the collected strings |
| `StringOrder.AscendingUnique` | src/main/java/io/pivotal/cfapp/client/SnapshotClient.java:142 | two strictly ascending sequences with the same elements are equal |
| `StringOrder.CollectIgnoresOrder` | src/main/java/io/pivotal/cfapp/client/SnapshotClient.java:142 | the collected TreeSet depends only on which strings arrive |
| `StringOrder.AscendingHasNoDuplicates` | src/main/java/io/pivotal/cfapp/client/SnapshotClient.java:142 | a collected TreeSet never holds the same string twice |
| `StringOrder.BelowIsCompareTo` | src/main/java/io/pivotal/cfapp/client/SnapshotClient.java:142 | the TreeSet's order is `compareTo`'s: a string is below another exactly when, at the first index where they differ, it holds the smaller character, or it is a proper prefix of the other |
| `StringOrder.BelowTransitive` | src/main/java/io/pivotal/cfapp/client/SnapshotClient.java:142 | the natural string order is transitive |
| `StringOrder.BelowTotal` | src/main/java/io/pivotal/cfapp/client/SnapshotClient.java:142 | any two different strings are ordered one way or the other |
| `CountsReducer.AggregateIsCategoryTotal` | src/main/java/io/pivotal/cfapp/client/SnapshotClient.java:159 | every category of the reduced counts is the sum of that category over the list (absent counts zero) |
| `CountsReducer.AggregatePermutation` | src/main/java/io/pivotal/cfapp/client/SnapshotClient.java:159 | reducing a permutation of the list gives the same counts |
| `CountsReducer.Aggregate` | src/main/java/io/pivotal/cfapp/client/SnapshotClient.java:159 | a category is present in the reduced counts exactly when it is present in one of the reduced values |
| `CountsReducer.AggregateOfNothing` | src/main/java/io/pivotal/cfapp/client/SnapshotClient.java:168 | reducing a list of empty counts maps gives the empty counts map |
| `CountsReducer.AggregateOfZeros` | src/main/java/io/pivotal/cfapp/client/SnapshotClient.java:159 | reducing counts whose every category is zero, whether listed or absent, gives zero in every category |

## Left out

- The HTTP exchange itself: `WebClient`, JSON decoding and TLS. A request's outcome is the `Reply` the round's `Network` gives for it. `sslValidationSkipped` is carried in the settings but, as in the source, the aggregation never reads it.
- The timer behind `.timeout(...)`: a reply counts as timed out when its latency reaches the configured timeout (`>=`). When the reply and the timer arrive at the same moment, the real outcome is a race.
- Reactor scheduling: the concurrency, the cancellation of sibling requests after an error, and the fact that no later sub-aggregation of a snapshot starts once one has failed. The model has no effects, so none of these changes a result.
- `SnapshotClient.FanOut`: when several butlers fail, Reactor reports whichever error arrives first. The model reports the first one in registry order, and its contract promises only that the error belongs to some failing butler.
- `SnapshotClient.AssembleApplicationDetail`, `SnapshotClient.AssembleServiceInstanceDetail`, `SnapshotClient.AssembleApplicationRelationships`: the merged list is fixed to registry order. What is proved about it holds for every interleaving, except its exact order across foundations.
- `SnapshotClient.AssembleApplicationCounts`, `SnapshotClient.AssembleServiceInstanceCounts`: the list handed to `aggregate` is in registry order, while the source hands over the counts in arrival order. The result is the same for every arrival order only when `aggregate` does not depend on order, as proved for the category-wise sum (`ApplicationCountsIgnoreArrivalOrder`, `ServiceInstanceCountsIgnoreArrivalOrder`).
- The bodies of `ApplicationCounts.aggregate` and `ServiceInstanceCounts.aggregate` are not part of this model. The assemblers take the reduction as a parameter. `CountsReducer.Aggregate`, the category-wise sum, is used only in the lemmas that depend on the reduction.
- The domain classes `AppDetail`, `ServiceInstanceDetail`, `AppRelationship`, `SnapshotDetail`, `SnapshotSummary` and the two counts classes are not part of this model. Records keep their fields other than `foundation` in `attributes`. Counts are maps from category to count. The empty documents hold empty collections, as documented. A `null` collection from a Lombok builder default is not modelled.
- A butler's own account collections are taken to be sequences in enumeration order, since their Java type is not part of this model. Only the merged result is a set.
- String order: Java's `compareTo` compares UTF-16 code units, and `StringOrder.Below` compares Dafny characters (Unicode scalar values). The two orders differ only between characters outside the Basic Multilingual Plane and characters from U+E000 to U+FFFF.
- `assembleCsvAIReport` and `assembleCsvSIReport` (`SnapshotClient.java:45-55`) only pass results to the CSV report and event classes, which are not part of this model.
- Logging of recovered errors (`SnapshotClient.java:95`, `:112`).
- `CountsReducer.Aggregate`: counts are unbounded naturals. The Java counts are fixed-width integers, and wrap-around on overflow is not modelled.
- `SnapshotClient.AssembleSnapshotDetail`, `SnapshotClient.AssembleSnapshotSummary`: one `HooverSettings` value serves every round. In the source the settings are refreshable, and each sub-aggregation reads the registry and the timeout anew (`SnapshotClient.java:58`, `:67`, `:76`, `:91`, `:138`, `:146`), so a refresh between two rounds could give them different butlers or timeouts.
- The registry is a `HashMap`, so its keys are unique. The model enumerates it as a sequence. Only the per-foundation lemmas need the keys to be unique (`UniqueNames`).
