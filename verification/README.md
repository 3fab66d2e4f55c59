# zipkates director, modelled in Dafny

zipkates is a reverse proxy in front of a Zipkin collector. It runs inside a
Kubernetes cluster. It watches the cluster's pods and indexes them by pod IP.
For every `POST /api/v2/spans` it finds the pod that sent the request from the
request's peer address. It then injects tags derived from that pod's labels
into the submitted spans. The label→tag mapping defaults to `owner→owner`.
A tag a span already carries keeps its value unless that value is `""`. A deferred function puts
the body bytes back after the body has been read; its comment says that
the original bytes are restored whenever anything fails.

The model covers the request-rewrite logic of `main.go`:

- `host_port.dfy` (`HostPort`): splitting `RemoteAddr` into host and port,
  as Go's `net.SplitHostPort` does.
- `pods.dfy` (`Pods`): the pod IP index key function `podIpKeyFunc`, the
  index lookup, and `getRequesterPod`.
- `staging.dfy` (`Staging`): building the tag→value map from the mapping and
  the pod's labels.
- `spans.dfy` (`Spans`): the span array as Go decodes it, the tag fill, and
  the span loop.
- `config.dfy` (`Configuration`): the default configuration and
  `ParseConfigFromEnv` as a pure function of the two environment values.
- `director.dfy` (`Director`): the closure returned by `CreateDirector`,
  covering the target rewrite, the method/path filter, lookup, staging, body
  read, rewrite and the deferred restore. `Direct` is the corrected
  director and `DirectAsWritten` the code as written (see "## Findings").
- `scenarios.dfy` (`Scenarios`): the director on the concrete inputs of the
  repository's tests.
- `json.dfy`, `wrappers.dfy`: the JSON value type, the abstract codec, and
  `Option`/`Result`.

Modelling choices:

- JSON parsing and serialisation are a `Codec` passed in by the caller:
  `unmarshal: Bytes -> Option<Json>` and `marshal: Json -> Option<Bytes>`.
  The model spells out what Go's decoder does when it converts a JSON value
  into the program's typed targets:
  - `[]map[string]interface{}` for the body;
  - `map[string]string` for the mapping;
  - `int` for the port.
- The indexer is modelled by the sequence of pods it holds. Its IP index is
  derived through `IpIndexKeys`, so it always agrees with the store.
- Go iterates `cfg.LabelTagMapping` in an unspecified order. When two labels
  map to the same tag, the later one in that order whose value on the pod is
  non-empty wins; a missing or empty label is skipped and leaves the earlier
  value in place. The order is an
  explicit parameter `order` of `Stage` and `Direct`. `Staging.StageOrderIrrelevant`
  shows the order does not matter when no two labels share a tag. Each
  request may use an order of its own.
- A tag counts as already set unless it is exactly the JSON string `""`. The
  Go code compares an `interface{}` with `""`, so `null`, numbers and objects
  all count as set.
- A request body is a `Body(read)`. `read` is the bytes a reader gets, or
  `None` when reading fails. A nil body is `None`.

Behaviour of the code that the model keeps:

- The code accepts any JSON object as `tags`, not only a string→string map,
  and compares its values as JSON values.
- Go decodes the port override `null` into the untouched zero value, so the
  port becomes 0. A mapping override of `null` gives a nil mapping, and an
  object member `null` decodes to `""`.
- After a failed body read the code returns without restoring anything. The
  model leaves the request's `Body` value as it was.
- The tests at conf_parser_test.go:24-42 expect a nil mapping when the
  variable is unset or empty. The code keeps the default `{"owner":"owner"}`,
  and so does the model.
- director_test.go calls `CreateDirector` with one argument. The scenarios
  use the default configuration in its place.

## Model

| member | source | states |
|---|---|---|
| HostPort.SplitHostPort | main.go:56 | a successful split of the peer address returns a host and port that rejoin to the address, as `host:port` with a colon-free host or as `[host]:port`; the port has no colon and neither part has brackets |
| HostPort.SplitBracketed | main.go:56 | an address `[host]:port` with a bracket-free host and a bracket-free, colon-free port splits into exactly that host and port |
| HostPort.SplitPlain | main.go:56 | an address `host:port` with a colon-free, bracket-free host and a bracket-free, colon-free port splits into exactly that host and port |
| HostPort.SplitJoined | main.go:56 | conversely, every address of either joined shape splits into exactly those parts, so the split succeeds iff the address has one of these shapes |
| HostPort.SplitJoinRoundTrip | main.go:56 | splitting the joined form of a bracket-free host and a colon-free port returns them |
| Pods.IpIndexKeys | main.go:39-49 | a pod with an empty IP gets no index key; otherwise its only key is its IP |
| Pods.ByIndex | main.go:51-53 | the lookup under an IP returns exactly the stored pods indexed under that IP, never more than the store holds |
| Pods.Index | main.go:39-53 | an IP is a key of the index iff it is non-empty and some stored pod advertises it; every bucket is non-empty and holds exactly the pods indexed under its IP; an IP that is not a key looks up to nothing |
| Pods.SingletonBucket | main.go:60-73 | the lookup finds exactly one pod iff exactly one store entry advertises the IP, and then it finds that entry |
| Pods.RequesterPod | main.go:55-79 | a resolved pod is in the store, advertises the host split from the peer address, and is the only pod advertising it; "no pod" means no pod advertises the host; "many pods" carries a count above one |
| Pods.RequesterPodUnique | main.go:55-79 | resolution succeeds iff the address splits into a non-empty host advertised by exactly one store entry, and that entry is the result |
| Staging.Stage | main.go:109-122 | every staged value is non-empty and comes from a visited label mapped to that tag; every visited label with a non-empty value has its tag staged |
| Staging.StagedTagsExactly | main.go:109-122 | a tag is staged iff some mapped label with that tag has a non-empty value on the pod |
| Staging.StagedTagsOrderFree | main.go:109-122 | the set of staged tags is the same for every iteration order of the mapping |
| Staging.StagedValueOfLabel | main.go:110-121 | when no two labels share a tag, a label's tag is staged with that label's value |
| Staging.StageOrderIrrelevant | main.go:110-121 | when no two labels share a tag, the staged map is the same for every iteration order of the mapping |
| Spans.DecodeItems | main.go:148-152 | the array elements decode iff every element is an object or null, and each decoded span encodes back to its element |
| Spans.DecodeSpans | main.go:148-152 | a top-level null gives no spans; a non-array is an error; an array decodes iff all elements are objects or nulls, and re-encodes to itself |
| Spans.DecodeEncodeSpans | main.go:148-188 | decoding the encoding of any span array gives it back |
| Spans.StagedObjectFilled | main.go:157-178 | the tags object a span without tags receives holds exactly the staged tags with their staged values, so a later fill of it needs and changes nothing |
| Spans.FillTags | main.go:170-179 | the filled tags keep every existing tag, keep every set value and every unstaged tag, and set each missing or empty staged tag to its staged value |
| Spans.ExistingTagsKept | main.go:170-176 | a tag value the caller already set survives the rewrite |
| Spans.FillTagsIdempotent | main.go:170-179 | filled tags need no further fill, and filling again changes nothing, also when the second staging gives other values to the same tags |
| Spans.FillModifiedIffChanged | main.go:170-179 | with non-empty staged values, the fill reports a modification iff it changes the tags |
| Spans.RewriteSpan | main.go:154-179 | a span without tags gets the staged object and is modified; object tags are filled and modified iff a fill was needed; non-object tags leave the span as is; no member other than `tags` changes; a nil span is skipped unmodified, which is the correction in "## Findings" (the code panics on it at main.go:160) |
| Spans.RewriteSpanIdempotent | main.go:154-179 | rewriting a rewritten span changes nothing and reports no modification, also when the second staging gives other values to the same tags |
| Spans.RewriteSpanModifiedIffChanged | main.go:154-179 | with staged tags, a span is reported modified iff it changed |
| Spans.RewriteSpans | main.go:153-180 | the corrected span loop (see "## Findings"): every span is rewritten on its own, a nil or skipped span does not stop the others, and the body is modified iff some span was |
| Spans.RewriteSpansIdempotent | main.go:153-180 | the span loop applied to its own output changes nothing and reports no modification, also when the second staging gives other values to the same tags |
| Spans.ModifiedDependsOnTagsOnly | main.go:153-180 | whether the span loop modifies the body depends only on which tags are staged, not on their values |
| Spans.RewriteSpansModifiedIffChanged | main.go:153-180 | with staged tags, the loop reports a modification iff the span array changed |
| Spans.RewriteSpansAsWritten | main.go:154-162 | the loop as written fails (panics) iff the array holds a nil-map span, and otherwise agrees with the corrected loop |
| Spans.NullElementPanics | main.go:148-162 | the body `[null]` decodes without error to one nil span, the loop as written panics on it, and the corrected loop leaves it unmodified |
| Configuration.ParseInt | main.go:212-216 | an accepted port literal is an optional sign followed only by digits, with at least one digit, lies within 64 bits and has the literal's sign; a literal with a fraction or an exponent is rejected |
| Configuration.ParseDigits | main.go:212-216 | any run of digits, leading zeros included, parses to the value of its digits, negated after a minus sign, whenever that value fits in 64 bits |
| Configuration.SignedZeros | main.go:212-216 | `-0` and `-00` give port 0, and a lone sign is rejected |
| Configuration.ParseRejectsOutOfRange | main.go:212-216 | the decimal literal of an integer outside 64 bits is rejected rather than clamped |
| Configuration.ParseFormatRoundTrip | main.go:212-216 | every 64-bit integer is read back from its decimal literal |
| Configuration.DecodeStringMap | main.go:203-207 | null gives a nil mapping; an object decodes iff its values are strings or nulls, into a map with the same keys, the string values, and `""` for each null member; anything else is an error |
| Configuration.DecodeEncodeStringMap | main.go:203-207 | a string map encoded as a JSON object decodes back to itself |
| Configuration.DecodeIntRoundTrip | main.go:212-216 | every 64-bit port written as a JSON number decodes back to itself |
| Configuration.ParseConfigFromEnv | main.go:196-220 | the parse succeeds iff both overrides are empty or decode; a bad mapping is reported first; empty values keep the defaults `{"owner":"owner"}` and 9411; non-empty ones replace the field with the decoded value |
| Configuration.EmptyObjectOverride | main.go:202-208 | the mapping override `{}` gives an allocated, empty mapping, not a nil one |
| Director.RewriteBody | main.go:140-192 | the corrected rewrite (see "## Findings"): the final body is the bytes read, unless they decode to spans, some span was modified and the result serialises; then it is that serialisation; a failed serialisation restores the bytes read, and a nil span is skipped |
| Director.RewriteBodyAsWritten | main.go:143-191 | the rewrite as written panics iff the decoded spans hold a nil span, forwards an empty body when the modified spans do not serialise, and otherwise gives the corrected body |
| Director.SerialiseFailureEmptiesBody | main.go:143-191 | for the body `[{}]` and a codec that cannot serialise, the code as written forwards an empty body while the corrected rewrite forwards the bytes read |
| Director.Direct | main.go:81-193 | the corrected director (see "## Findings"): the target is always `http`/`127.0.0.1:9410`; a request other than `POST /api/v2/spans` is otherwise untouched; any other change only replaces a readable body with buffered bytes whose length becomes the content length |
| Director.DirectAsWritten | main.go:81-193 | the director as written panics exactly when a nil span reaches the span loop, forwards an empty body with content length 0 when the rewrite does not serialise, and otherwise equals the corrected director |
| Director.UnresolvedPassesThrough | main.go:102-108 | a request whose sender does not resolve to exactly one pod passes through untouched |
| Director.NothingStagedPassesThrough | main.go:109-128 | when the pod carries none of the mapped labels, the body is neither read nor changed |
| Director.ReadBodyIsReplaced | main.go:133-147 | once the body is read, it becomes the rewritten bytes and the content length equals their length |
| Director.BodyChangesOnlyWithSpans | main.go:153-192 | the body bytes change only if they decoded to spans and the rewrite changed some span |
| Director.NoSpansKeepsBytes | main.go:148-186 | a body of `[]`, or JSON that is not an array, comes out byte for byte |
| Director.RewriteBodyIdempotent | main.go:143-192 | with a codec that serialises every value and parses it back, rewriting a rewritten body gives the same bytes, also when the second pass stages other values for the same tags |
| Director.DirectIdempotent | main.go:81-193 | with such a codec, running the director on its own output changes nothing, even when the second run visits the mapping in another order |
| Scenarios.TestPodResolves | director_test.go:17-21 | a request from 192.0.2.1:1234 resolves to the pod at 192.0.2.1 |
| Scenarios.OwnerSpanRewrite | director_test.go:33-52 | a span whose tags lack `owner`, such as the test's `http.method=GET, http.path=/api`, gains `owner=from_label` next to them and is modified |
| Scenarios.OwnerTagAdded | director_test.go:33-52 | end to end, for any span tags without `owner`, the forwarded body is the serialisation of the span with `owner=from_label` added |
| Scenarios.TestSpanGainsOwner | director_test.go:33-52 | end to end, the test's span tagged `http.method=GET, http.path=/api` is forwarded with `owner=from_label` added |
| Scenarios.OwnerTagKept | director_test.go:54-74 | a span already tagged `owner=from_span` keeps it, and the body is restored as read |
| Scenarios.DifferentPodIpPassesThrough | director_test.go:150-166 | a pod at another IP does not match, and the request passes through untouched |
| Scenarios.TwoMappingsParse | conf_parser_test.go:10-22 | LABEL_TAG_MAPPING `{"label_a":"tag_a", "label_b": "tag_b"}` parses into exactly that mapping |
| Scenarios.TwoLabelsIntoMissingTags | main.go:110-162 | with that mapping and a pod carrying both labels, a span without tags receives exactly `tag_a` and `tag_b` with the labels' values, in every iteration order |
| Scenarios.NullSpanSubmissionPanics | main.go:148-162 | the test pod submitting `[null]` makes the director as written panic, while the corrected director forwards the bytes read |

## Left out

- `main()` is not modelled. It covers the in-cluster client, the reflector and
  its list-watch, `http.ListenAndServe` and `httputil.ReverseProxy`. These are
  I/O and concurrency plumbing.
- The internals of `cache.Indexer` are not modelled: locking, and the
  Add/Update/Delete bookkeeping. The index is derived from the pods the store
  holds, which is what a consistent index returns. The library source is not
  part of this model.
- The type-assertion failures are not modelled. These are `podIpKeyFunc` on a
  non-pod and `podObjects[0].(*v1.Pod)`. The modelled store holds only pods,
  so they cannot occur.
- The `ByIndex` error for an unknown index name is not modelled. The `ip`
  index is always registered.
- `klog` logging is left out because it has no behavioural effect.
  `os.Getenv` is replaced by the two environment values as parameters.
- The byte grammar of JSON is inside the abstract `Codec`. So are Go's float64
  conversion of numbers decoded into `interface{}` and its map-key ordering.
- After a failed body read, the partly consumed stream is not modelled. The
  model leaves the request's `Body` value as it was.
- `ContentLength` is an unbounded integer, not an `int64`.
- Director.RewriteBodyIdempotent: assumes that `marshal` succeeds on every
  JSON value and that `unmarshal` inverts it (`RoundTrips`). Go's codec
  meets this on the values its own parser produces, and only up to its
  float64 normalisation of numbers.
- Director.DirectIdempotent: rests on the same codec assumption.
- The pod store is any sequence of pods. The indexer's rule that no two
  stored pods share a namespace and name is not imposed. So the model also
  covers stores the indexer cannot reach, such as the same pod held twice,
  which resolves to `ManyPods(2)`.

## Findings

| source | as written | input that shows it | evidently intended | confidence | as-written member | corrected member |
|---|---|---|---|---|---|---|
| main.go:148-162 | `json.Unmarshal` decodes a `null` array element into a nil map. The loop then runs `span["tags"] = tagValues` on it, which panics. The panic unwinds out of the director and the request is never forwarded. | body `[null]` from a pod that resolves and has a non-empty mapped label | a nil span is skipped like a span with non-object tags, and the request is forwarded | high (not executed) | Spans.RewriteSpansAsWritten, Spans.NullElementPanics, Director.DirectAsWritten, Scenarios.NullSpanSubmissionPanics | Spans.RewriteSpans, Director.Direct |
| main.go:143-191 | The deferred restore reads the variable `bodyBytes` when it runs. `bodyBytes, err = json.Marshal(spans)` has already set it to Marshal's nil result before the error check. A failed serialisation therefore forwards an empty body with content length 0. | the body `[{}]` from a pod that resolves, under a codec whose `marshal` fails | a failed serialisation restores the bytes read, as the comment above the deferred function says | low (not executed; Go's `json.Marshal` does not fail on the values its `json.Unmarshal` produces, so the path is latent) | Director.RewriteBodyAsWritten, Director.SerialiseFailureEmptiesBody | Director.RewriteBody |
