# A verified model of the inference payload processor

The payload processor sits behind Envoy's external-processing filter. It buffers a request
body, lets plugins rewrite it and pick a model, streams the result back in chunks, and does
the same for the response. Beside that path, events flow through a bounded queue to
extractors that keep per-model counters and cost digests, a reconciler keeps a store of
models in line with a configuration file, and a filter, score and pick pipeline reads that
store to choose a model. This project models these parts in Dafny and proves what they keep.

How the parts fit together:

- `Messages`, `Envoy`: the message a plugin sees, the log of its header mutations, the cutting
  of a body into chunks. Plugins are arbitrary functions that act through the message API and
  may fail; JSON is an arbitrary partial parse and an arbitrary partial marshal.
- `Handlers`, `Stream`: what each handler and each received message of a stream computes, as
  functions. `Servers` holds the objects and loops of the source and proves each method equal
  to these functions. `RequestTrace` and `ResponseTrace` say the same call by call: which
  plugins a request, a response or a chunk goes through, what each is given, and what becomes
  of message, cycle state and stream. `SplitInvariance`, `ResponseStream` and `Framing` prove
  properties of whole runs.
- `FanOut`, `Launching`: the event queue with its loop, and component registration against
  Start and Stop, as transition systems over every interleaving. `Processors` proves that the
  methods of the Processor object are their steps.
- `RequestMetadata`: the floored counters. `InFlight` composes streams, queue, loop and
  extractor, and proves the accounting end to end. Events hold a reference to their request,
  so the extractor reads the body when it runs; the model does the same.
- `AdaptersStores`: three maps as an index over live ConfigMaps. `AdaptersSearch`: against a
  direct search of the data of the ConfigMaps in force.
- `Datastores`, `ModelConfig`, `ModelGroup`: the store, the reconciler, the group filter, and
  the round trip between the last two.
- `MaxScore`, `Scorers`, `Selection`, `ModelSelector`: the selection pipeline over exact real
  arithmetic, up to the field written into the request.
- `CostMetadata`: cost samples and published digests, a digest being the sequence of samples.
- `StoreHistory`: the store under all its writers, over whole histories. `GroupRouting` joins it
  to `InFlight` and the selection pipeline: what a request for a group gets on the running
  system.
- `Crashes`: when a stream panics.
- `ConfigLoader`: profiles and processor lists from a configuration, and the buffering rule.
  `ProfileLoading`: which reference ends up where, and when a profile is refused.

What a request's or response's fields, a ConfigMap's data or a configuration's entries mean for
the result is stated of these data themselves, in lemmas of their own: for instance, a request
is counted for m exactly when its "model" field is the string m
(`RequestMetadata.RequestIsCounted`), and a price attribute is a millionth of the configured
price of the entry that decides (`ModelConfig.SyncedPrices`).

What is assumed of the surroundings is stated where it is used. The order of a stream's
messages matters in three places: the request body's final chunk comes before any response
chunk (`InFlight.Lifecycle`), headers come once and before bodies (`Framing.HeadersBeforeBody`),
and after the response headers only response chunks, trailers and re-delivered request chunks
follow (`ResponseStream.Tail`). ConfigMaps keep their base model, deletes carry it, and adapter
names are unique (`AdaptersSearch.WellBehaved`). Digests are published by nobody but the cost
extractor (`CostMetadata.Step`).

Places where a promise of the documentation does not hold of the code as it stands. In each,
the model follows the code, a lemma shows an input that fails, and a theorem says exactly when
the promise holds:

- A registered model is expected to have a price, so that consumers may read it unconditionally
  (pkg/framework/interface/datalayer/pricing/pricing.go:34-37), as the cost scorer does. Both extractors create
  a model without a price for any name an event carries. Right after a sync every candidate is
  priced; later all are priced if and only if no event since then carried a name that the
  configuration does not list (`StoreHistory.PricedIff`), and if one did, with more than one
  candidate, the scorer panics (`StoreHistory.UnconfiguredNamePanics`). Behind the group filter
  only requests that ask for every model can panic (`GroupRouting.FilteredCostPanicsIff`).
- Post-processors are documented to run after the response plugins of every profile
  (docs/plugins.md:396), and elsewhere as not invoked yet (docs/configuration.md:71). The code
  invokes the body post-processors on a completed response if and only if its request had a
  complete body and its own bytes parse; otherwise it calls no plugin on the response
  (`ConfigLoader.PostProcessorsCalledIff`). Two families fail: streams whose request had no body
  (`ConfigLoader.BodylessRequestSkipsPostProcessors`) and responses that do not parse
  (`ConfigLoader.UnparsedResponseSkipsPostProcessors`).
- A ConfigMap that changes its base model is not re-counted, so the new base model is not
  found and the old one still is (`AdaptersStores.ChangedBaseModelIsNotFound`). An adapter moved
  by adding it to a second ConfigMap before removing it from the first is lost
  (`AdaptersStores.MovedAdapterIsLost`), although names are unique again in the end. The index
  stays right exactly when an operation keeps the base model and shares adapters fairly
  (`AdaptersStores.StepAgreesExactly`); with unique names that leaves the base model.

A panic is modelled where the code can reach one. A body that parses as null leaves a nil Go
map, which reads as empty; a plugin that then writes a field panics, nothing recovers, and the
client gets no reply (`Crashes.NullBodyCrashes`). A request panics if and only if its body
parses as null and some plugin that runs writes a field before any replaces the body
(`Crashes.RequestCrashesIff`), provided that no plugin panics for a reason of its own, such as
a scorer; a buffered response likewise (`Crashes.ResponseCrashesIff`). A panic ends the whole
process, so a run of several streams is to be read up to the first one.

Two more exact conditions, where no promise is broken:

- Only responses are floored at zero, so a request with a negative max_tokens takes a token
  counter below it (`RequestMetadata.NegativeTokens`). When a counter is not negative is stated
  by `RequestMetadata.NonNegativeIff`, and when it equals what is in flight by
  `InFlight.SignedAccountingIff`.
- In-flight scores leave [0,1] exactly when the spread of the counts overflows int64 and some
  count lies strictly between the extremes (`Scorers.InFlightRangeExactly`), for instance with
  counts -1, 0 and the largest int64 (`Scorers.InFlightRangeFails`). The extractor does not
  publish such request counts, so only another writer of that attribute could cause it.

## Model

| member | source | states |
|---|---|---|
| Envoy.BuildChunkedBodyResponses | pkg/common/envoy/chunking.go:31-74 | the loop, empty body included, yields the chunking that ChunkingIsFaithful is about |
| Envoy.ChunkingIsFaithful | pkg/common/envoy/chunking.go:31-74 | for every body the chunks re-concatenate to it, each is at most 62000 bytes, there are max(1, ceil(n/62000)) of them, and only the last carries EndOfStream, if asked for |
| Envoy.ItoaRoundTrip | pkg/handlers/request.go:84-96 | the decimal Content-Length reads back as the length, so equal strings mean equal lengths, and it has only digits and no leading zero |
| Messages.HeaderLogReplay | pkg/framework/interface/requesthandling/types.go:45-67 | after any sequence of message calls the removed and set lists are key-disjoint and, applied to the starting headers, give the current headers |
| Messages.ResponseLogReplay | pkg/framework/interface/requesthandling/types.go:45-67 | the same for calls on a response, chunk calls included |
| Messages.PanicsIff | pkg/framework/interface/requesthandling/types.go:69-84 | a sequence of calls panics if and only if it finds a nil body and writes a field before any call replaces the body |
| Messages.ChunkStateAfter | pkg/framework/interface/requesthandling/types.go:106-120 | after any calls that do not panic the current chunk is that of the last SetChunk, and the chunk counts as mutated iff it did before or some call set it |
| Messages.OpsRunInOrder | pkg/framework/interface/requesthandling/types.go:45-84 | the calls of a plugin are made in order, each on the message the one before left, up to the first that panics |
| Messages.ResponseOpsRunInOrder | pkg/framework/interface/requesthandling/types.go:45-120 | the same for calls on a response |
| Messages.InferenceMessage.SetHeader | pkg/framework/interface/requesthandling/types.go:45-51 | setting a header to the value it has changes nothing; else headers and log follow, and a removal of the key is forgotten |
| Messages.InferenceMessage.RemoveHeader | pkg/framework/interface/requesthandling/types.go:53-59 | removing an absent header changes nothing; else headers and log follow, and a set of the key is forgotten |
| Messages.InferenceMessage.SetBodyField | pkg/framework/interface/requesthandling/types.go:74-77 | panics, changing nothing, if and only if the body is a nil map; else one field is set and the body is marked mutated |
| Messages.InferenceMessage.RemoveBodyField | pkg/framework/interface/requesthandling/types.go:79-84 | an absent field leaves the message alone, a present one is removed and the body marked |
| Handlers.ResponseHandlersKeepRequest | pkg/handlers/response.go:38-237 | no response handler touches the request or the profile, and none notifies by itself |
| Handlers.CaptureIs | pkg/common/envoy/headers.go:27-32 | of the headers received with a key the last one counts, by its raw value if that is not empty and else by its value; other keys stay |
| Handlers.UnmarshalledIs | pkg/handlers/request.go:64-69 | a parsed object sets its fields and leaves the others, null leaves a nil map, and nothing but the body changes |
| Stream.RunAppend | pkg/handlers/server.go:147-271 | running two lists of messages one after the other is running their concatenation |
| Stream.EndedRun | pkg/handlers/server.go:247-263 | once Process has returned, nothing more is received, sent or notified |
| Stream.ConcludeReports | pkg/common/error/error.go:51-83 | a handler's error is answered with status 400, 401, 403, 404, 429, 500 or 503 by its code, and without one ends the stream with a gRPC error; a panic ends it silently |
| Stream.QuietSteps | pkg/handlers/server.go:165-245 | request headers are captured and answered only if they end the stream; chunks of an incomplete body are kept, those of a complete one ignored; trailers are acknowledged; an unknown message ends the stream |
| Servers.Server.Process | pkg/handlers/server.go:110-271 | over the whole message loop, replies sent, way of ending and events notified are those of Stream.Run |
| Servers.Server.Receive | pkg/handlers/server.go:145-271 | one turn of the loop on the mutable locals is one step of the stream machine, error answers included |
| Servers.Server.Handle | pkg/handlers/server.go:165-245 | the switch over message kinds, with accumulation, completion flags, routing by the buffering flag and the notification |
| Servers.Server.HandleRequestBody | pkg/handlers/request.go:64-126 | on the mutable objects, the context, the result and the events are those RequestTrace.WentThrough describes: parse, every pre-processor, profile pick, every profile plugin, marshal, Content-Length and event, with every error exit and every panic |
| Servers.Server.RunRequestPlugins | pkg/handlers/request.go:129-150 | the plugins are called in order, each on the cycle state and message its predecessors left, all of them or up to the first error or panic, whose earlier calls stand |
| RequestTrace.PluginsRun | pkg/handlers/request.go:129-150 | one call per plugin, indexed, each given what its predecessor left, up to the first that fails; cycle state, message and error are those of the last call |
| RequestTrace.SeenIsFolded | pkg/handlers/request.go:129-150 | each call is given the fold of all calls before it over the message |
| RequestTrace.RequestGoesThrough | pkg/handlers/request.go:64-126 | every request body goes through its pre-processors, then the picker, then the picked profile's plugins, call by call, and ends in BadRequest, the failing call's error, Internal for the picker's, a marshal error, or the headers reply that clears the route cache, the chunks and one event |
| RequestTrace.EveryRequestGoesThrough | pkg/handlers/server.go:180-192 | in every run, the message that completes the request takes all bytes received through exactly that, and the client gets the replies or the status of the error |
| RequestTrace.NoRequestPluginIsSkipped | pkg/handlers/request.go:64-150 | in every run, a completed request that does not end the stream has gone through one call per pre-processor, the picker, and one call per request plugin of the picked profile, in order, and message and cycle state are what the last call left |
| RequestTrace.RequestAsReceived | pkg/handlers/request.go:40-69 | in every run the pre-processors get the parsed object as body, no mutation noted, and the headers received, the last of each key |
| RequestTrace.BytesAreKept | pkg/handlers/server.go:180-192 | until the request body is complete all its bytes received are kept in order |
| Servers.AddStreamedBodyResponse | pkg/handlers/request.go:154-166 | appends one request-body reply per chunk, in order |
| Servers.AddStreamedResponseBody | pkg/common/envoy/response.go:26-38 | appends one response-body reply per chunk, in order |
| Servers.Server.HandleResponseHeaders | pkg/handlers/response.go:38-61 | headers captured, header post-processors run, reply deferred unless the headers end the stream |
| Servers.Server.HandleResponseBody | pkg/handlers/response.go:64-120 | passthrough, plugin and marshal branches with their errors and panics, on the object that plugins mutate |
| Servers.Server.HandleResponseChunk | pkg/handlers/response.go:161-184 | chunk state reset, processors run, the replacement sent only when a processor set one |
| Servers.Server.BuildStreamedChunkResponse | pkg/handlers/response.go:206-237 | the deferred headers reply goes out with the first chunk only |
| ResponseTrace.PluginsRun | pkg/handlers/response.go:187-296 | each loop over response plugins calls them in order with the given flag, each on the cycle state and response its predecessors left, up to the first that fails |
| ResponseTrace.HeadersStep | pkg/handlers/response.go:38-61 | in every state, response headers are captured, go through the header post-processors, and are answered exactly if they end the stream, with the header log and the route cache left alone |
| ResponseTrace.BodyStep | pkg/handlers/response.go:64-135 | in every state, the message that completes a buffered response takes all its bytes through body plugins and body post-processors, or past them if there are none or it does not parse; replies, failures and event follow |
| ResponseTrace.ChunkStep | pkg/handlers/response.go:161-237 | in every state, a streamed chunk goes through the chunk processors and is sent as received or as they set it, after one headers reply per response |
| SplitInvariance.RequestSplitInvariance | pkg/handlers/server.go:145-192 | in every interleaving, replies, events and resulting state depend on the request body only through its bytes up to the first EndOfStream; chunks delivered later change nothing |
| SplitInvariance.AnyTwoChunkingsAgree | pkg/handlers/server.go:180-192 | two chunkings of one request body lead to the same state, replies and events |
| SplitInvariance.ResponseSplitInvariance | pkg/handlers/server.go:198-238 | the same for a buffered response, for every interleaving once the request body is complete |
| SplitInvariance.ProfileIsFixed | pkg/handlers/server.go:180-245 | after the request body is complete no message changes the profile |
| ResponseStream.RunServesChunk | pkg/handlers/response.go:187-203 | a successful run of the chunk processors calls each once, in order, each on the chunk its predecessors left |
| ResponseStream.StreamedTail | pkg/handlers/response.go:161-237 | in a streamed response every chunk processor sees every received chunk once and in order, and one headers reply precedes the chunks |
| ResponseStream.BufferedTail | pkg/handlers/server.go:208-216 | a completed buffered response is one call of HandleResponseBody on all bytes up to EndOfStream |
| ResponseStream.BodyHandled | pkg/handlers/response.go:64-135 | body plugins then post-processors run once each and in order on a body that parses, and what is sent is the marshalled result if mutated, else the bytes received |
| ResponseStream.ResponseOrderAndFidelity | pkg/handlers/response.go:64-237 | a response with deferred headers that ends without error got exactly one headers reply, before all body replies, of which exactly the last has EndOfStream, and the bodies are what the plugin calls make of the received chunks |
| ResponseStream.UnmutatedBodyIsKept | pkg/handlers/response.go:64-237 | plugins that do not mutate leave the body as received, a streamed one even chunk by chunk |
| Framing.RequestFraming | pkg/handlers/request.go:84-126 | on every successful request the replayed headers are the message's, and Content-Length (section 8.6 of RFC 9110) is the decimal length of the concatenated chunks that follow |
| Framing.ResponseFraming | pkg/handlers/response.go:64-135 | the same for a buffered response, Content-Length whenever a plugin mutated the body |
| Framing.EveryRequestIsFramed | pkg/handlers/request.go:84-126 | over whole runs, the message that completes a request is answered, unless it ends in an error or a panic, by headers whose Content-Length, applied to the headers received, is the decimal length of the chunks that follow |
| Framing.EveryBufferedResponseIsFramed | pkg/handlers/response.go:64-135 | the same over whole runs for the message that completes a buffered response, whenever a plugin mutated the body |
| Framing.LogsAlongRun | pkg/handlers/server.go:147-271 | along every run the logs of request and response explain their headers |
| Framing.EveryHeadersReplyReplays | pkg/handlers/response.go:100-157 | in every run each headers reply, applied to the headers received so far, gives the headers the message has when that reply is built |
| Crashes.RequestPanicsIff | pkg/handlers/request.go:64-82 | a request that finds a body that is not nil panics if its body parses as null and some plugin that runs writes a field before any replaces the body, and, unless a plugin panics for a reason of its own, only then |
| Crashes.RequestCrashesIff | pkg/handlers/request.go:64-82 | over whole runs, the message that completes a request takes the process down, without reply or event, under exactly that condition |
| Crashes.ResponsePanicsIffNull | pkg/handlers/response.go:64-87 | a buffered response panics under the same condition on its own body and body plugins, if there are any |
| Crashes.ResponseCrashesIff | pkg/handlers/response.go:64-87 | over whole runs, the same for the message that completes a buffered response |
| Crashes.NullBodyCrashes | pkg/handlers/request.go:64-73 | a body that parses as null and one pre-processor that sets a field: no reply, no event, a crash |
| FanOut.StepKeepsInv | pkg/datalayer/processor.go:127-133 | every step of notifiers, event loop and cancel keeps: accepted events are those taken followed by those queued, the queue is within bounds, every extractor has seen what its turn allows |
| FanOut.FanOutIsOrdered | pkg/datalayer/processor.go:195-213 | in every interleaving the dispatched events followed by the queued ones are the accepted ones in order, the queue never exceeds 10000, each extractor's calls are a prefix, every notified event is accepted or dropped, once, and it is dropped exactly when it finds the queue full |
| FanOut.ClosedLoopIsFinal | pkg/datalayer/processor.go:195-213 | once the loop has closed notifyDone all extractors have been called on the same prefix of the accepted events, and never again |
| FanOut.StopIsFinal | pkg/datalayer/processor.go:182-193 | once Stop of a started processor has returned, no extractor is called any more |
| FanOut.StopReturns | pkg/datalayer/processor.go:182-213 | after the cancellation the loop can close notifyDone within as many steps as extractor calls are left and two more, so Stop can return |
| Launching.StepKeepsInv | pkg/datalayer/processor.go:96-186 | each component registered before Stop is launched or about to be exactly once as soon as Start has succeeded |
| Launching.NeverLaunchedTwice | pkg/datalayer/processor.go:96-179 | at no moment of any interleaving has a component been launched twice, by Start, by its registration or by both |
| Launching.LaunchedExactlyOnce | pkg/datalayer/processor.go:96-186 | when nothing is left to launch after a successful Start, the launched components are those validly registered before Stop, once each |
| Processors.Processor.RegisterExtractor | pkg/datalayer/processor.go:84-93 | adds an extractor before Start only; later calls are ignored |
| Processors.Processor.RegisterCollector | pkg/datalayer/processor.go:96-110 | the locked section is the registration step; a frequency that is not positive is refused |
| Processors.Processor.RegisterDatasource | pkg/datalayer/processor.go:114-125 | the locked section is the registration step, and tells the caller to launch if and only if a launch is due |
| Processors.Processor.Notify | pkg/datalayer/processor.go:128-133 | the non-blocking send is the queue's notify step |
| Processors.Processor.Start | pkg/datalayer/processor.go:137-179 | fails exactly when started or stopped before; else takes the snapshot it launches from |
| Processors.Processor.Dispatch | pkg/datalayer/processor.go:195-213 | one received event goes to all extractors in order, once per registration, as the loop's steps say |
| RequestMetadata.ReflectionLaw | pkg/framework/plugins/datalayer/requestmetadata/plugin.go:83-134 | for every history, matched or not, of amounts that are not negative, as request counts are, each counter is the largest net of requests over responses of any suffix, so it is never negative |
| RequestMetadata.SignedReflectionLaw | pkg/framework/plugins/datalayer/requestmetadata/plugin.go:83-134 | for amounts of either sign that fit an int64 together, each counter is the largest net of any suffix that starts at the beginning or right after a response |
| RequestMetadata.NonNegativeIff | pkg/framework/plugins/datalayer/requestmetadata/plugin.go:100-134 | a counter is not negative if and only if the net of some such suffix is not |
| RequestMetadata.NegativeTokens | pkg/framework/plugins/datalayer/requestmetadata/plugin.go:97-118 | one request with max_tokens -5 leaves a token counter of -5; a request and response for 3 tokens then raise it to 0 while the net is still -5 |
| RequestMetadata.MaxSuffixNetIsUnique | pkg/framework/plugins/datalayer/requestmetadata/plugin.go:83-134 | that law determines the counter |
| RequestMetadata.BatchesDoNotMatter | pkg/framework/plugins/datalayer/requestmetadata/plugin.go:83-126 | accounting for two batches is accounting for their concatenation |
| RequestMetadata.SignedStep | pkg/framework/plugins/datalayer/requestmetadata/plugin.go:100-134 | within int64 one event moves a counter by its amount, of either sign, and only a response is floored at zero |
| RequestMetadata.RequestMetadataExtractor.AccountBatch | pkg/framework/plugins/datalayer/requestmetadata/plugin.go:83-120 | the loop over the events yields the accounted counters, of which the next rows say what they are, and exactly the changed ones to publish |
| RequestMetadata.RequestMetadataExtractor.Extract | pkg/framework/plugins/datalayer/requestmetadata/plugin.go:83-126 | counters and store after a batch are those of Extraction, determined event by event in the next rows; if every published attribute equalled its counter before, it does after |
| RequestMetadata.RequestIsCounted | pkg/framework/plugins/datalayer/requestmetadata/plugin.go:88-102 | a request whose body has the string m, not empty, as "model" raises the requests of m by 1 and its tokens by the integer part of a numeric "max_tokens", else 0, publishes that counter on m, and changes nothing else |
| RequestMetadata.ResponseIsCounted | pkg/framework/plugins/datalayer/requestmetadata/plugin.go:104-118 | a response lowers both likewise, neither below zero |
| RequestMetadata.OthersAreNotCounted | pkg/framework/plugins/datalayer/requestmetadata/plugin.go:86-112 | if "model" is absent, no string or empty, or the event is of another kind, nothing changes |
| RequestMetadata.ExtractionsCompose | pkg/framework/plugins/datalayer/requestmetadata/plugin.go:83-126 | two batches leave the counters and the store that one batch with all their events leaves, so the three rows above say what every batch does |
| RequestMetadata.ExtractionIsDetermined | pkg/framework/plugins/datalayer/requestmetadata/plugin.go:83-126 | a batch leaves one result, in whatever order counters are published |
| RequestMetadata.Wraps | pkg/framework/plugins/datalayer/requestmetadata/plugin.go:99-134 | counter arithmetic is that of int64: congruent modulo 2^64, and exact within its range |
| RequestMetadata.CarriedNames | pkg/framework/plugins/datalayer/requestmetadata/plugin.go:86-125 | the models a batch touches are those its events name |
| RequestMetadata.TokensOfIs | pkg/framework/plugins/datalayer/requestmetadata/plugin.go:97-100 | the tokens of a body are the integer part of its "max_tokens", which fits an int64, or 0 |
| InFlight.StepFacts | pkg/handlers/server.go:180-238 | a message notifies one request event exactly when it completes the request without error, one response event exactly when it completes the response; the request body is written at no other time |
| InFlight.StepKeepsInv | pkg/handlers/server.go:180-238 | every step of streams, queue and loop keeps: events are distinct, belong to streams in the matching state, and a request event precedes its response event |
| InFlight.ExtractedInOrder | pkg/datalayer/processor.go:195-213 | a request event of a named model reaches the extractor before its response event |
| InFlight.InFlightAccounting | pkg/framework/plugins/datalayer/requestmetadata/plugin.go:83-126 | in every interleaving of any number of streams with no event dropped, Requests of m, and Tokens when max_tokens is never negative, are the sum over the streams whose request body has the string m as "model", whose request event has been extracted and whose response event has not |
| InFlight.SignedAccountingIff | pkg/framework/plugins/datalayer/requestmetadata/plugin.go:83-134 | with amounts of either sign, a counter has always been what is in flight if and only if no extracted response has ever taken that below zero |
| InFlight.FloorNeverFires | pkg/framework/plugins/datalayer/requestmetadata/plugin.go:129-134 | on such runs, with amounts that are not negative, a response never subtracts more than the counter holds |
| InFlight.RequestsCountsStreamsInFlight | pkg/framework/plugins/datalayer/requestmetadata/plugin.go:83-126 | Requests of m is the number of streams in flight whose request body has the string m as "model" |
| AdaptersStores.NoAdapterEverDangles | pkg/framework/plugins/requesthandling/basemodelextractor/adapters_store.go:67-132 | after any updates, failed updates and deletes every resolvable adapter is in the set of a ConfigMap still recorded |
| AdaptersStores.StepAgreesExactly | pkg/framework/plugins/requesthandling/basemodelextractor/adapters_store.go:67-132 | one operation keeps the three maps equal to what the live ConfigMaps say if and only if it keeps or carries the base model, drops no adapter that another live ConfigMap lists, and maps none of those to another base model |
| AdaptersStores.StepAgreesIff | pkg/framework/plugins/requesthandling/basemodelextractor/adapters_store.go:67-132 | with globally unique names before and after, if and only if it keeps or carries the base model |
| AdaptersStores.MovedAdapterIsLost | pkg/framework/plugins/requesthandling/basemodelextractor/adapters_store.go:75-89 | an adapter added to a second ConfigMap and then removed from the first is listed by the second but no longer found |
| AdaptersStores.CountsAfterChange | pkg/framework/plugins/requesthandling/basemodelextractor/adapters_store.go:91-98 | an update that does not re-count leaves the counts right exactly when the base model is the same |
| AdaptersStores.CountsAfterDelete | pkg/framework/plugins/requesthandling/basemodelextractor/adapters_store.go:119-131 | a delete leaves the counts right exactly when the object handed to it has the base model of the ConfigMap |
| AdaptersSearch.StoreRefinesSearch | pkg/framework/plugins/requesthandling/basemodelextractor/adapters_store.go:67-148 | over every history with unique names in which base models are kept and handed to deletes, a lookup answers what a direct search of the data of the ConfigMaps in force answers for the trimmed name, adapters first, then bases, and each base counts its ConfigMaps in force |
| AdaptersSearch.LiveIsInForce | pkg/framework/plugins/requesthandling/basemodelextractor/adapters_store.go:67-132 | the live mappings of a history are what the ConfigMaps in force say: those whose last well-formed update no delete has followed |
| AdaptersStores.ChangedBaseModelIsNotFound | pkg/framework/plugins/requesthandling/basemodelextractor/adapters_store.go:91-98 | a ConfigMap updated from base a to base b: b is not found, a still is |
| AdaptersStores.AdaptersStore.ConfigMapUpdateOrAddIfNotExist | pkg/framework/plugins/requesthandling/basemodelextractor/adapters_store.go:67-102 | fails, changing nothing, exactly when the base model is missing or blank or the list cannot be read; else the adapters recorded are exactly the trimmed entries of the list that are not blank, and the three maps change as in the next rows |
| AdaptersStores.TrimSpaceIs | pkg/framework/plugins/requesthandling/basemodelextractor/adapters_store.go:135-169 | trimming is unique: the string is the result between spaces, and the result neither begins nor ends with one |
| AdaptersStores.SpacesAre | pkg/framework/plugins/requesthandling/basemodelextractor/adapters_store.go:135-186 | the spaces that trimming removes are the 25 white-space characters of Unicode |
| AdaptersStores.ParseIs | pkg/framework/plugins/requesthandling/basemodelextractor/adapters_store.go:152-187 | parsing succeeds exactly on data with a base model that is not blank and a blank, absent or readable list, and gives exactly that base and those adapters |
| AdaptersStores.UpdateRecords | pkg/framework/plugins/requesthandling/basemodelextractor/adapters_store.go:67-100 | an update records exactly the adapters the ConfigMap lists, in place of those recorded for it; other ConfigMaps stay |
| AdaptersStores.UpdateMaps | pkg/framework/plugins/requesthandling/basemodelextractor/adapters_store.go:75-89 | each listed adapter leads to the base model, one no longer listed nowhere, any other where it led |
| AdaptersStores.UpdateCounts | pkg/framework/plugins/requesthandling/basemodelextractor/adapters_store.go:90-98 | the first update of a ConfigMap adds one to its base model, a later one changes no count |
| AdaptersStores.UpdatedAdapterIsFound | pkg/framework/plugins/requesthandling/basemodelextractor/adapters_store.go:134-148 | right after an update, every name that trims to a listed adapter resolves to the base model |
| AdaptersStores.AdaptersStore.ConfigMapDelete | pkg/framework/plugins/requesthandling/basemodelextractor/adapters_store.go:105-132 | the method's effect, with its early returns |
| AdaptersStores.AdaptersStore.GetBaseModel | pkg/framework/plugins/requesthandling/basemodelextractor/adapters_store.go:134-148 | the lookup the theorems are about, leaving the store alone |
| Datastores.Store.GetOrCreateModel | pkg/datastore/inmemory/datastore.go:42-52 | returns the one model of that name, created without attributes if absent; no other model changes |
| Datastores.Store.DeleteModel | pkg/datastore/inmemory/datastore.go:54-58 | removes exactly that name |
| Datastores.Store.GetModels | pkg/datastore/inmemory/datastore.go:62-73 | returns exactly the models that satisfy the predicate, each once |
| ModelConfig.SyncModels | pkg/framework/plugins/datalayer/modelconfigcollector/plugin.go:190-280 | from any store, the loops leave the store that the next rows describe |
| ModelConfig.SyncedPrices | pkg/framework/plugins/datalayer/modelconfigcollector/plugin.go:230-245 | after a sync exactly the names are registered about which some entry decides, the last entry of the name in order, and the price attribute times a million is that entry's input price for input and its output price for output |
| ModelConfig.SyncedGroupsAttribute | pkg/framework/plugins/datalayer/modelconfigcollector/plugin.go:246-252 | the group attribute lists the groups of the model and is absent exactly when there are none |
| ModelConfig.GroupsOfAppend | pkg/framework/plugins/datalayer/modelconfigcollector/plugin.go:213-226 | the groups of a model are in configuration order |
| ModelConfig.GroupsOfOne | pkg/framework/plugins/datalayer/modelconfigcollector/plugin.go:213-226 | a named group is listed as often as it lists the model, an unnamed one never |
| ModelConfig.SyncConverges | pkg/framework/plugins/datalayer/modelconfigcollector/plugin.go:190-280 | names, prices and groups after a sync, as the rows above have them, depend on the configuration alone, and every other attribute of a surviving model is kept |
| ModelConfig.SyncIsIdempotent | pkg/framework/plugins/datalayer/modelconfigcollector/plugin.go:190-280 | a second sync changes nothing |
| ModelConfig.Membership | pkg/framework/plugins/datalayer/modelconfigcollector/plugin.go:213-226 | the inversion from groups of models to groups per model lists each group as often as it lists the model, in order |
| ModelConfig.DeleteStale | pkg/framework/plugins/datalayer/modelconfigcollector/plugin.go:264-280 | deletes exactly the models that are not desired |
| ModelGroup.Filter | pkg/framework/plugins/modelselector/filter/modelgroup/filter.go:98-150 | returns the wanted models in the given order, for any list; without a "model", with null, "" or "auto" all of them, and none when it is no string |
| ModelGroup.SelectIs | pkg/framework/plugins/modelselector/filter/modelgroup/filter.go:98-128 | what each kind of "model" field asks for: everything, nothing, a group, or a name |
| ModelGroup.WantedInOrder | pkg/framework/plugins/modelselector/filter/modelgroup/filter.go:98-150 | but for an explicit name, each model is kept exactly when it is asked for, in the order given |
| ModelGroup.WantedIsFilter | pkg/framework/plugins/modelselector/filter/modelgroup/filter.go:98-150 | a model that is returned was given and is asked for; the converse holds unless an explicit name occurs twice, and then one bearer is returned |
| ModelGroup.GroupInversionRoundTrip | pkg/framework/plugins/modelselector/filter/modelgroup/filter.go:98-150 | after a sync of any store, auto/g keeps exactly the registered models some group named g lists, an explicit name exactly that registered model or nothing, auto all of them |
| MaxScore.SortIsStable | pkg/framework/plugins/modelselector/picker/maxscore/picker.go:78-86 | the sort is descending, a permutation, and keeps the order of equal scores |
| MaxScore.SortStable | pkg/framework/plugins/modelselector/picker/maxscore/picker.go:78-86 | the in-place sort computes that order |
| MaxScore.ShuffleIsPermutation | pkg/framework/plugins/modelselector/picker/common.go:58-62 | a shuffle with any draws is a permutation |
| MaxScore.ShuffleScoredModels | pkg/framework/plugins/modelselector/picker/common.go:50-62 | the in-place swaps compute that shuffle |
| MaxScore.Pick | pkg/framework/plugins/modelselector/picker/maxscore/picker.go:69-89 | picks the winner of the shuffle, the subject of the next two rows |
| MaxScore.WinnerIsMaximum | pkg/framework/plugins/modelselector/picker/maxscore/picker.go:69-89 | whatever the draws, the winner has the highest score |
| MaxScore.EveryMaximumCanWin | pkg/framework/plugins/modelselector/picker/maxscore/picker.go:75-89 | every entry with the highest score wins under some draws, so ties are really open |
| Scorers.ScoreInFlight | pkg/framework/plugins/modelselector/scorer/inflightrequests/plugin.go:67-92 | a score for exactly the given models, normalised by int64 differences |
| Scorers.InFlightReversesLoad | pkg/framework/plugins/modelselector/scorer/inflightrequests/plugin.go:67-106 | while the spread of the counts fits an int64, scores lie in [0,1], are 1 exactly for the least and 0 exactly for the most loaded, and reverse the load order |
| Scorers.InFlightScoreIs | pkg/framework/plugins/modelselector/scorer/inflightrequests/plugin.go:83-91 | while the spread fits an int64 the score is (most - count) / (most - least), or 1 if all counts are equal |
| Scorers.InFlightRangeExactly | pkg/framework/plugins/modelselector/scorer/inflightrequests/plugin.go:83-91 | all scores lie in [0,1] if and only if the spread fits an int64 or every count is an extreme |
| Scorers.InFlightRangeFails | pkg/framework/plugins/modelselector/scorer/inflightrequests/plugin.go:83-91 | among counts -1, 0 and the largest int64 the middle one scores below 0 |
| Scorers.ScoreCost | pkg/framework/plugins/modelselector/scorer/costaware/plugin.go:81-115 | panics exactly when there is a choice and some model has no price; else a score for exactly the given models, one model, free models and the general case |
| Scorers.CostReversesPrice | pkg/framework/plugins/modelselector/scorer/costaware/plugin.go:81-115 | for priced models, with prices that are not negative, scores lie in [0,1] and of two or more models a cheaper one scores strictly higher |
| Scorers.CostScoresSum | pkg/framework/plugins/modelselector/scorer/costaware/plugin.go:106-112 | the scores of n priced models, n at least 2, with a positive total price add up to n - 1 |
| Scorers.CostScoreIs | pkg/framework/plugins/modelselector/scorer/costaware/plugin.go:81-115 | one model scores 0.5, free models 1, and else a score falls short of 1 by the share of the price in the total |
| Scorers.SumPricesAppend | pkg/framework/plugins/modelselector/scorer/costaware/plugin.go:88-96 | the total adds up the input prices of all models |
| Selection.Pipeline.AddPlugins | pkg/modelselector/model_selector_pipeline.go:85-120 | succeeds if and only if no scorer comes without a weight and there is at most one picker in all; then everything is added in order, else nothing is |
| ProfileLoading.OneSelector | pkg/modelselector/model_selector_pipeline.go:85-120 | one plugin may be added as a filter, a weighted scorer and a picker at once |
| ProfileLoading.FiltersAppend | pkg/modelselector/model_selector_pipeline.go:85-120 | filters are in the order of the plugins |
| ProfileLoading.ScorersAppend | pkg/modelselector/model_selector_pipeline.go:85-120 | scorers are in the order of the plugins |
| Selection.FilteredAreCandidates | pkg/modelselector/model_selector_pipeline.go:161-197 | filters that return subsets leave candidates only |
| Selection.FiltersRunInOrder | pkg/modelselector/model_selector_pipeline.go:177-194 | each filter runs once, in order, on what its predecessor kept, until one keeps nothing; the result is what the last one kept |
| Selection.AnyOrder | pkg/modelselector/model_selector_pipeline.go:226-230 | the order in which a score map is iterated does not matter to any total |
| Selection.Pipeline.RunScorerPlugins | pkg/modelselector/model_selector_pipeline.go:199-238 | each name's cell, that of its last model, ends with the total of weighted clamped scores, scores of unknown names being ignored |
| Selection.TotalIsWeightedSum | pkg/modelselector/model_selector_pipeline.go:199-238 | for distinct names, whatever unknown names are scored too, the total is the sum over scorers of weight times clamped score |
| Selection.WeightedSumIs | pkg/modelselector/model_selector_pipeline.go:226-230 | the weighted sum adds up over scorers, and one scorer gives its weight times its clamped score |
| Selection.ClampIs | pkg/modelselector/model_selector_pipeline.go:270-278 | a score is moved to the nearest point of [0,1] |
| Selection.Pipeline.Run | pkg/modelselector/model_selector_pipeline.go:146-159 | ResourceExhausted exactly when the filters leave nothing, a panic exactly when they leave something a scorer panics on; else, with the max-score picker, a surviving candidate of maximal total, for every map order and shuffle |
| Selection.BestMaximisesWeightedSum | pkg/modelselector/model_selector_pipeline.go:146-278 | being the result means: no scorer panics, and no other candidate's weighted sum exceeds this one's; scores of unknown names do not matter |
| Selection.UniqueMaximumIsChosen | pkg/modelselector/model_selector_pipeline.go:146-278 | the result is unique whenever the maximum is |
| Selection.DominatedIsNeverChosen | pkg/modelselector/model_selector_pipeline.go:146-278 | a candidate no better than another under every scorer and worse under one of positive weight is never the result |
| ModelSelector.ModelSelectorPlugin.ProcessRequest | pkg/framework/plugins/requesthandling/modelselector/plugin.go:80-100 | the candidates are the store's models; with the max-score picker it panics exactly when something is left by the filters and a scorer panics on it or the body is a nil map; errors and panics leave request and cycle state alone; else a best candidate's name is in both |
| ModelSelector.KeptIsWanted | pkg/framework/plugins/modelselector/filter/modelgroup/filter.go:98-150 | the filter on candidate values is the filter on the model objects |
| ModelSelector.LeastLoadedWins | pkg/framework/plugins/modelselector/scorer/inflightrequests/plugin.go:67-106 | that scorer alone with a positive weight can select exactly a least loaded candidate |
| ModelSelector.CheapestWins | pkg/framework/plugins/modelselector/scorer/costaware/plugin.go:81-115 | that scorer alone with a positive weight can select exactly a cheapest candidate, provided that all are priced or there is no choice; otherwise it panics and nothing is selected |
| ModelSelector.CheapestConfiguredWins | pkg/framework/plugins/modelselector/scorer/costaware/plugin.go:81-115 | from configuration to choice: right after a sync over any store it can select exactly the models with the lowest configured input price |
| ModelSelector.GroupRequestGetsLeastLoaded | pkg/framework/plugins/requesthandling/modelselector/plugin.go:80-100 | from configuration to choice: auto/g can get exactly a least loaded registered model listed by a group g, and nothing is left exactly when there is none |
| GroupRouting.FewestKnownInFlightWins | pkg/framework/plugins/requesthandling/modelselector/plugin.go:80-100 | in every interleaving of streams, events, extractors and syncs with no event dropped, auto/g can get exactly a registered model listed in g with the fewest streams in flight as far as the scorer knows, which knows nothing of a model deleted since its last event |
| GroupRouting.FewestInFlightWins | pkg/framework/plugins/requesthandling/modelselector/plugin.go:80-100 | when no model of g with streams in flight was deleted since its last event, exactly one with the fewest streams in flight |
| GroupRouting.ScorerSeesStreams | pkg/framework/plugins/modelselector/scorer/inflightrequests/plugin.go:96-106 | the count the scorer reads is the number of streams in flight, or 0 for a model deleted since its last event |
| GroupRouting.FilteredCostPanicsIff | pkg/framework/plugins/modelselector/scorer/costaware/plugin.go:90-112 | between syncs a run through the group filter and the cost scorer panics if and only if the request asks for every model, there is more than one, and some event carried a name that the configuration does not list |
| GroupRouting.MembersSinceSync | pkg/framework/plugins/modelselector/filter/modelgroup/filter.go:98-150 | between syncs the members of a group are the registered models the configuration lists in it, whatever models events have added |
| ModelSelector.CandidatesAreRegistered | pkg/framework/plugins/requesthandling/modelselector/plugin.go:83-86 | after a sync the candidates' names are exactly those with a valid configuration entry |
| StoreHistory.PricedIff | pkg/framework/plugins/modelselector/scorer/costaware/plugin.go:90-112 | over every history of the store's writers since a sync, all candidates are priced, and, handed all of them and more than one, the cost scorer does not panic, if and only if no event carried a name that the configuration does not list |
| StoreHistory.UnconfiguredNamePanics | pkg/framework/plugins/datalayer/requestcostmetadata/plugin.go:300-310 | next to a configured model, one price lookup for an unconfigured name leaves a candidate without a price, on which the cost scorer panics |
| StoreHistory.ModelsSinceSync | pkg/framework/plugins/datalayer/requestmetadata/plugin.go:121-125 | between syncs models are only added, one per name that events carry, and prices and groups stand |
| StoreHistory.PublishedUnlessDeleted | pkg/framework/plugins/datalayer/requestmetadata/plugin.go:121-125 | over every history of batches, syncs and other writers, the published attribute of a model equals its counter, but is absent exactly for models deleted since the last event that named them |
| CostMetadata.OneSamplePerUsableResponse | pkg/framework/plugins/datalayer/requestcostmetadata/plugin.go:145-197 | the digest of each model grows by its samples of the batch, in order, which the rows below say what they are, and by nothing else |
| CostMetadata.RequestCostMetadataExtractor.AddBatch | pkg/framework/plugins/datalayer/requestcostmetadata/plugin.go:137-197 | with the per-batch price cache the loop adds exactly the samples under the store's prices, and touches the models it looked up |
| CostMetadata.RequestCostMetadataExtractor.LookupTokenPrices | pkg/framework/plugins/datalayer/requestcostmetadata/plugin.go:300-310 | the price of the model if it has one; an unknown model is created |
| CostMetadata.RequestCostMetadataExtractor.Flush | pkg/framework/plugins/datalayer/requestcostmetadata/plugin.go:201-224 | in any order, exactly the updated models whose window has passed get a snapshot and a new flush time |
| CostMetadata.RequestCostMetadataExtractor.Extract | pkg/framework/plugins/datalayer/requestcostmetadata/plugin.go:137-226 | accumulators and store after a batch are those of Extracts, which the next rows say of the bodies' fields |
| CostMetadata.ResponseIsAccounted | pkg/framework/plugins/datalayer/requestcostmetadata/plugin.go:145-286 | a response to a request for m adds to m, and to nobody else, exactly the sample prompt * input price + completion * output price if m is priced and the deciding format has two positive counts, and no sample exactly otherwise; it touches m alone |
| CostMetadata.UsableIsSampled | pkg/framework/plugins/datalayer/requestcostmetadata/plugin.go:178-286 | the same of the samples, in the three formats: usageMetadata decides if it is an object, then prompt_tokens if present, then input_tokens |
| CostMetadata.SampledIsUsable | pkg/framework/plugins/datalayer/requestcostmetadata/plugin.go:145-286 | only such responses give a sample |
| CostMetadata.SamplesConcat | pkg/framework/plugins/datalayer/requestcostmetadata/plugin.go:145-197 | the samples of a batch are those of its events, in order |
| CostMetadata.BatchLeaves | pkg/framework/plugins/datalayer/requestcostmetadata/plugin.go:201-226 | a model that got a sample is flushed exactly when the interval is 0 or has passed since its last flush, its first sample counting as a flush; then its snapshot is its digest and the flush time now; models answered for are created |
| CostMetadata.OthersAreNotAccounted | pkg/framework/plugins/datalayer/requestcostmetadata/plugin.go:145-166 | a request event, or a response to a request that names no model, changes nothing |
| CostMetadata.SnapshotsArePrefixes | pkg/framework/plugins/datalayer/requestcostmetadata/plugin.go:137-226 | over every history, whatever happens to prices and models meanwhile, the digest of a model is the sequence of its samples, a published snapshot is a prefix of it, and with flush interval 0 the whole of it unless the model was deleted since its last sample |
| CostMetadata.BatchesDoNotMatter | pkg/framework/plugins/datalayer/requestcostmetadata/plugin.go:137-226 | while prices stand, the samples are those of all events in order, however they are batched |
| ConfigLoader.BuildProfiles | pkg/config/loader/configloader.go:213-284 | succeeds if and only if there are profiles and each is loadable; the result has exactly their names, the last profile of a name counting |
| ConfigLoader.BuildProfile | pkg/config/loader/configloader.go:223-281 | a profile loads if and only if its name, sections and references are in order and body and chunk processors are not mixed |
| ProfileLoading.RefusedIff | pkg/config/loader/configloader.go:223-281 | a profile is refused exactly for a missing name, a missing or empty plugins section, a reference that is unknown, of the wrong kind, or to a scorer without a weight, or for body plugins next to chunk processors |
| ProfileLoading.LoadedIs | pkg/config/loader/configloader.go:231-280 | the four plugin lists of a loaded profile, and the flag: it needs buffering exactly if some reference is to a body plugin |
| ProfileLoading.RequestRefsAppend | pkg/config/loader/configloader.go:233-258 | request and model-selector plugins are in the order of their references |
| ProfileLoading.OneRequestRef | pkg/config/loader/configloader.go:233-258 | a request processor is that alone; any other plugin goes to the model selector, a scorer with its weight |
| ProfileLoading.ResponseRefsAppend | pkg/config/loader/configloader.go:260-274 | body plugins and chunk processors are in the order of their references |
| ProfileLoading.OneResponseRef | pkg/config/loader/configloader.go:260-274 | a plugin that processes bodies counts as that, even if it also processes chunks |
| ConfigLoader.BuildPreProcessors | pkg/config/loader/configloader.go:286-306 | succeeds if and only if every reference names a request processor; the list is theirs, in order |
| ConfigLoader.BuildPostProcessors | pkg/config/loader/configloader.go:308-337 | succeeds if and only if each reference is a body or headers processor; one that is both is in both lists |
| ProfileLoading.PostNamesAppend | pkg/config/loader/configloader.go:308-337 | post-processors of both kinds are in the order of their references |
| ProfileLoading.OnePostName | pkg/config/loader/configloader.go:308-337 | one that is both is in both lists |
| ConfigLoader.LoadProcessing | pkg/config/loader/configloader.go:71-100 | when a load succeeds, exactly, what its profiles, pre- and post-processors are, and that each loaded profile buffers iff it has body plugins or there are body post-processors, and then has no chunk processors |
| ConfigLoader.WireModelSelector | pkg/config/loader/configloader.go:342-358 | loaded plugins are refused only for a second picker, and then nothing is added; else filters and scorers are added in order, and without a picker the max-score picker is set |
| ConfigLoader.ProfileAlongRun | pkg/handlers/server.go:129-192 | while a stream lives its profile is a configured one exactly once its request body is complete, before that the empty one |
| ConfigLoader.NoPluginIsSkipped | pkg/handlers/server.go:208-219 | under a loaded configuration, in every run from the start whose request body was completed, a response that ends without error has gone through every chunk processor, chunk by chunk in order, or, when its body parses, once through every body plugin and body post-processor |
| ConfigLoader.PostProcessorsCalledIff | pkg/handlers/response.go:64-92 | under a loaded configuration with body post-processors, in every run that completes its response, the calls after the response headers are one of each body plugin and body post-processor, in order, if and only if the request body was completed and the response parses; otherwise there is no call at all |
| ConfigLoader.UnparsedResponseSkipsPostProcessors | pkg/handlers/response.go:74-77 | a buffered response whose bytes do not parse completes without error and without any plugin call |
| ConfigLoader.BodylessRequestSkipsPostProcessors | pkg/handlers/server.go:129-134 | a request of headers only and a one-chunk response pass without any body plugin being called |

## Left out

- Failures of Send and Recv, cancellation of the stream's context, timestamps, metrics, traces and logging: I/O with no effect on what is proved.
- gRPC, TLS, certificate reload, health, flags and deployment files.
- JSON and YAML codecs, t-digest internals and the digest's own errors: an arbitrary parse and marshal, and a sequence of samples.
- A plugin that passes a nil map to SetBody: the body it sets is taken to be a map that can be written.
- Header-name case folding, repeated headers messages, and a body that ends with trailers instead of an EndOfStream chunk.
- Conversion of a float64 outside int64 to int64, which Go leaves to the implementation; floating-point rounding, NaN and infinities in scores and prices.
- The plugins' hidden state, clocks and randomness: a plugin is a function of what it is given; the calls recorded in a context are an observation added by the model.
- The profile pointer that HandleRequestBody sets to nil on a picker error: the stream has ended by then, and the model keeps the old one.
- The delivery of one message with its notifications is one step of InFlight; finer interleavings inside a handler are not modelled.
- Whether Stop waits for components launched by a concurrent Start or registration; polling frequency, jitter and restart of collectors.
- The Kubernetes watch that feeds the adapters store and the file watch that feeds the model configuration: the model starts from the ConfigMap and from the parsed configuration.
- Concurrent writers to the store during a sync, a selection or a cost batch; a selection reads a snapshot of names and attributes.
- A nil price pointer stored as an attribute.
- InFlight.InFlightAccounting: covers token counts only while max_tokens is not negative; InFlight.SignedAccountingIff states when the equality holds otherwise.
- The weighted-random and random pickers, CostGuard, session affinity: probability and a library cache.
- Resolution of the profile picker and of data-layer references in the loader, plugin instantiation and defaults; one model selector shared by several profiles.
- Servers.Server.Process: does not model the exits on cancellation or on a failing Recv or Send; it returns after the given messages, where the source waits for more until the peer closes the stream.
- MaxScore.SortStable: is the insertion sort that the library runs on short slices; longer slices are merged blocks of the same order, which a stable sort determines.
- Selection.Pipeline.Run: requires a picker, because the source dereferences it; with another picker than max-score nothing is claimed of its choice.
- ResponseStream.ResponseOrderAndFidelity: does not cover response headers that themselves end the stream, which are answered at once and have no body.
