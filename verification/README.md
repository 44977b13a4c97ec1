# cloud-reporting encoder and event builder, in Dafny

This project models the core of google/cloud-reporting, a small Java library.
The library reports usage events to Google Analytics with the Measurement
Protocol. Two parts are modelled:

- **The encoder** (`MetricsUtils`). It turns one `Event` into the parameter list of
  a pageview hit:
  - the combined type `type/objectType`;
  - the virtual page name `/virtual/type[/objectType]/name`;
  - the virtual page title, built from metadata escaped with `METADATA_ESCAPER`;
  - the twelve always-present and five conditional name/value pairs that
    `buildParameters` adds, in its order.
- **The event record** (`Event`) and its staged `Event.Builder`: defaults, setters and
  clears, `addMetadata`, and `build()` with its three required fields.

Modules, one per file:

| module | file | models |
|---|---|---|
| `Wrappers` | wrappers.dfy | `Option` (Guava `Optional`) and `Result` (success or the reason `build()` refuses) |
| `Decimal` | decimal.dfy | `Long.toString` of the cache-buster draw; a reader proving it round-trips |
| `Joiner` | joiner.dfy | Guava `Joiner.on(sep)`, with `skipNulls()` modelled as dropping `None`; a splitter used in proofs |
| `Escaper` | escaper.dfy | `METADATA_ESCAPER`; an unescaper and a segment reader proving it reversible |
| `Events` | event.dfy | `Event`, `Event.Builder`, metadata as an association list |
| `Parameters` | parameters.dfy | `buildParameters` and `toValue`; parameter names as a `Field` datatype |
| `MetricsUtils` | metrics_utils.dfy | `buildCombinedType`, `buildVirtualPageName`, `buildVirtualPageTitle`, `buildPostBody` |
| `Scenarios` | scenarios.dfy | the example inputs of `MetricsUtilsTest` |

Some modelling choices:

- **Random draw.** `buildParameters` calls `random.nextLong()` once. Here that draw
  is an input, `draw: Int64`.
- **Metadata** is a sequence of `(key, value)` pairs in insertion order. `Put` follows
  the contract documented on `addMetadata`: a repeated key is overwritten in place,
  the last write wins, and a new key is appended.
- **Parameter list.** `buildParameters` is modelled as a table:
  - `Added(a, f)` is what the `listBuilder.add` for field `f` adds, or `None` when its
    guard skips it;
  - `WireOrder` lists the fields in the order the Java method adds them.
- **Field renamed.** Java's `type` field is called `eventType`, because `type` is a
  Dafny keyword.

## Model

Source paths are relative to the repository root.

| member | source | states |
|---|---|---|
| Escaper.EscapeChar | src/main/java/com/google/cloud/metrics/MetricsUtils.java:44-49 | `,`, `=` and `\` become a backslash followed by the character; every other character stands for itself |
| Escaper.Escape | src/main/java/com/google/cloud/metrics/MetricsUtils.java:44-49 | the escaped string is longer than the input by exactly the number of `,`, `=` and `\` in it |
| Escaper.EscapeIdentity | src/main/java/com/google/cloud/metrics/MetricsUtils.java:44-49 | a string containing none of the three characters is left unchanged |
| Escaper.EscapeConcat | src/main/java/com/google/cloud/metrics/MetricsUtils.java:44-49 | the escaper works character by character: escaping a concatenation concatenates the escapes |
| Escaper.UnescapeEscape | src/main/java/com/google/cloud/metrics/MetricsUtils.java:44-49 | unescaping undoes escaping for every string (left inverse) |
| Escaper.EscapeInjective | src/main/java/com/google/cloud/metrics/MetricsUtils.java:44-49 | distinct strings have distinct escapes |
| Escaper.EscapeHasNoBareDelimiter | src/main/java/com/google/cloud/metrics/MetricsUtils.java:44-49 | in an escaped string every `,` and `=` is preceded by an escaping backslash, so the title's own separators cannot be confused with data |
| Escaper.ReadSegmentEscape | src/main/java/com/google/cloud/metrics/MetricsUtils.java:156-157 | reading an escaped key or value gives back the original and stops exactly at the `=` or `,` that follows it |
| Joiner.SkipAbsentMember | src/main/java/com/google/cloud/metrics/MetricsUtils.java:129 | `skipNulls()` keeps exactly the present values |
| Joiner.SplitJoin | src/main/java/com/google/cloud/metrics/MetricsUtils.java:142-143 | joining separator-free parts with `/` and splitting at `/` gives back the parts |
| MetricsUtils.CombinedType | src/main/java/com/google/cloud/metrics/MetricsUtils.java:128-130 | the combined type is the event type alone when the object type is absent, else `type/objectType` |
| MetricsUtils.PageSegments | src/main/java/com/google/cloud/metrics/MetricsUtils.java:142-143 | the joined segments are `/virtual`, the type, the object type only when present, and the name |
| MetricsUtils.VirtualPageName | src/main/java/com/google/cloud/metrics/MetricsUtils.java:140-144 | the page name is `/virtual/type/name` without an object type, `/virtual/type/objectType/name` with one |
| MetricsUtils.VirtualPageNameSegments | src/main/java/com/google/cloud/metrics/MetricsUtils.java:140-144 | for `/`-free inputs, splitting the page name at `/` yields exactly `""`, `virtual`, type, [objectType,] name, so an absent object type leaves no empty segment (`//`) |
| MetricsUtils.VirtualPageTitle | src/main/java/com/google/cloud/metrics/MetricsUtils.java:152-160 | the title is empty exactly when there is no metadata |
| MetricsUtils.VirtualPageTitleSnoc | src/main/java/com/google/cloud/metrics/MetricsUtils.java:154-159 | one more entry appends `,` then escaped key, `=`, escaped value; a single entry has no `,` |
| MetricsUtils.ParseTitleRoundTrip | src/main/java/com/google/cloud/metrics/MetricsUtils.java:152-160 | the title can be read back into the exact list of entries, whatever `,`, `=` or `\` the keys and values contain |
| MetricsUtils.VirtualPageTitleInjective | src/main/java/com/google/cloud/metrics/MetricsUtils.java:152-160 | different metadata lists never produce the same title |
| Parameters.ToValue | src/main/java/com/google/cloud/metrics/MetricsUtils.java:257-259 | `toValue` gives `"1"` exactly for true and `"0"` exactly for false |
| Parameters.BuildParameters | src/main/java/com/google/cloud/metrics/MetricsUtils.java:183-252 | a pair is in the list iff its add happened with that value; pairs appear in the method's order; each name appears at most once |
| Parameters.Sent | src/main/java/com/google/cloud/metrics/MetricsUtils.java:210-249 | a name is in the list iff its guard passes, and then with the added value |
| Parameters.AnalyticsParameters | src/main/java/com/google/cloud/metrics/MetricsUtils.java:210-220 | every list holds `v=1`, `tid=analyticsId`, `t=pageview`, `ni=0` and `z=` the draw in decimal |
| Parameters.EventParameters | src/main/java/com/google/cloud/metrics/MetricsUtils.java:222-224 | every list holds `cd19=eventType` and `cd20=eventName` |
| Parameters.UserParameters | src/main/java/com/google/cloud/metrics/MetricsUtils.java:229-230 | every list holds `cid=clientId`, and `cd17` and `cd16` with the signed-in and internal flags as `1`/`0` (lines 237-238) |
| Parameters.PageParameters | src/main/java/com/google/cloud/metrics/MetricsUtils.java:244-246 | every list holds `cd21=1` and `dp=virtualPageName` |
| Parameters.ConditionalParameters | src/main/java/com/google/cloud/metrics/MetricsUtils.java:225-249 | `dh`, `cd31` and `cd18` appear iff their optional is present and non-empty; `cd22` iff the trial flag is present; `dt` iff the title is non-empty; each with the expected value |
| Parameters.ParameterCount | src/main/java/com/google/cloud/metrics/MetricsUtils.java:208-251 | the list has 12 pairs plus one per conditional pair whose guard passes |
| Parameters.AddAllAppend | src/main/java/com/google/cloud/metrics/MetricsUtils.java:210-249 | performing the adds of two field groups in turn concatenates their pairs |
| Decimal.LongToString | src/main/java/com/google/cloud/metrics/MetricsUtils.java:220 | `Long.toString` gives a `-` exactly for negatives, then decimal digits with no leading zero |
| Decimal.LongToStringRoundTrip | src/main/java/com/google/cloud/metrics/MetricsUtils.java:220 | reading the decimal text back gives the draw |
| Decimal.LongToStringInjective | src/main/java/com/google/cloud/metrics/MetricsUtils.java:220 | distinct draws give distinct cache busters |
| MetricsUtils.BuildPostBody | src/main/java/com/google/cloud/metrics/MetricsUtils.java:95-119 | the hit's pairs carry each name at most once, in the method's order |
| MetricsUtils.WireNamesDistinct | src/main/java/com/google/cloud/metrics/MetricsUtils.java:104-118 | in the name/value pairs handed to form encoding, no parameter name occurs twice |
| MetricsUtils.PostBodyEvent | src/main/java/com/google/cloud/metrics/MetricsUtils.java:103-110 | the combined type reaches `cd19`, the name reaches `cd20`, the client id reaches `cid` |
| MetricsUtils.PostBodyHit | src/main/java/com/google/cloud/metrics/MetricsUtils.java:104-117 | the analytics id reaches `tid` and the draw, in decimal, reaches `z` |
| MetricsUtils.PostBodyPage | src/main/java/com/google/cloud/metrics/MetricsUtils.java:100-108 | the virtual page name reaches `dp`; `dt` is sent iff the event has metadata, and then carries its title |
| MetricsUtils.PostBodyCount | src/main/java/com/google/cloud/metrics/MetricsUtils.java:95-119 | a hit has 12 pairs, plus one each for a non-empty hostname, project number hash and billing id hash, a known trial flag, and non-empty metadata |
| Events.Put | src/main/java/com/google/cloud/metrics/Event.java:269-276 | an existing key keeps its place and the list its length; a new key adds exactly one entry; no earlier key moves |
| Events.PutLookup | src/main/java/com/google/cloud/metrics/Event.java:269-276 | after adding, the key maps to the new value, every other key keeps its value, and the key set grows by the key only |
| Events.PutDistinctKeys | src/main/java/com/google/cloud/metrics/Event.java:269-276 | adding never creates a duplicate key |
| Events.PutPut | src/main/java/com/google/cloud/metrics/Event.java:269-272 | a second add under the same key overwrites the first |
| Events.NewBuilder | src/main/java/com/google/cloud/metrics/Event.java:153-165 | a fresh builder has no name, type or client id, both flags false, every optional absent and no metadata |
| Events.Builder.SetName | src/main/java/com/google/cloud/metrics/Event.java:175-178 | `setName` sets the name and changes no other field |
| Events.Builder.SetType | src/main/java/com/google/cloud/metrics/Event.java:182-185 | `setType` sets the type and changes no other field |
| Events.Builder.SetClientId | src/main/java/com/google/cloud/metrics/Event.java:189-192 | `setClientId` sets the client id and changes no other field |
| Events.Builder.SetIsUserSignedIn | src/main/java/com/google/cloud/metrics/Event.java:193-196 | sets the signed-in flag only |
| Events.Builder.SetIsUserInternal | src/main/java/com/google/cloud/metrics/Event.java:197-200 | sets the internal flag only |
| Events.Builder.SetIsUserTrialEligible | src/main/java/com/google/cloud/metrics/Event.java:201-204 | makes the trial flag present with the value; nothing else changes |
| Events.Builder.ClearIsUserTrialEligible | src/main/java/com/google/cloud/metrics/Event.java:208-211 | makes the trial flag absent; nothing else changes |
| Events.Builder.SetClientHostname | src/main/java/com/google/cloud/metrics/Event.java:215-218 | makes the hostname present; nothing else changes |
| Events.Builder.ClearClientHostname | src/main/java/com/google/cloud/metrics/Event.java:222-225 | makes the hostname absent; nothing else changes |
| Events.Builder.SetObjectType | src/main/java/com/google/cloud/metrics/Event.java:229-232 | makes the object type present; nothing else changes |
| Events.Builder.ClearObjectType | src/main/java/com/google/cloud/metrics/Event.java:236-239 | makes the object type absent; nothing else changes |
| Events.Builder.SetProjectNumberHash | src/main/java/com/google/cloud/metrics/Event.java:243-246 | makes the project number hash present; nothing else changes |
| Events.Builder.ClearProjectNumberHash | src/main/java/com/google/cloud/metrics/Event.java:250-253 | makes the project number hash absent; nothing else changes |
| Events.Builder.SetBillingIdHash | src/main/java/com/google/cloud/metrics/Event.java:257-260 | makes the billing id hash present; nothing else changes |
| Events.Builder.ClearBillingIdHash | src/main/java/com/google/cloud/metrics/Event.java:264-267 | makes the billing id hash absent; nothing else changes |
| Events.Builder.AddMetadata | src/main/java/com/google/cloud/metrics/Event.java:269-276 | afterwards the key maps to the value, other keys keep their values, distinct keys stay distinct, other fields are unchanged |
| Events.AddMetadataTwice | src/main/java/com/google/cloud/metrics/Event.java:269-272 | adding under a key already added overwrites it; adding the same pair twice is adding it once |
| Events.Builder.Build | src/main/java/com/google/cloud/metrics/Event.java:281-287 | `build()` fails iff name, type or client id is unset, naming the first one missing in check order; on success the event carries every builder field |
| Events.ClearAfterSet | src/main/java/com/google/cloud/metrics/Event.java:201-267 | set-then-clear equals clear, and clearing twice equals clearing once, for each optional field |
| Events.LastSetWins | src/main/java/com/google/cloud/metrics/Event.java:175-260 | setting a field twice keeps only the second value |
| Events.RunName | src/main/java/com/google/cloud/metrics/Event.java:156 | after any call sequence from `builder()`, the name is set iff `setName` was among the calls |
| Events.RunType | src/main/java/com/google/cloud/metrics/Event.java:157 | the type is set iff `setType` was among the calls |
| Events.RunClientId | src/main/java/com/google/cloud/metrics/Event.java:158 | the client id is set iff `setClientId` was among the calls |
| Events.RunDistinctKeys | src/main/java/com/google/cloud/metrics/Event.java:154-155 | every reachable builder's metadata has distinct keys |
| Events.BuildAfterCalls | src/main/java/com/google/cloud/metrics/Event.java:281-287 | `build()` after any call sequence succeeds iff each of `setName`, `setType` and `setClientId` was called; the event's metadata then has distinct keys |
| Events.BuildDefaults | src/main/java/com/google/cloud/metrics/Event.java:154-165 | setting only the required fields builds an event with both flags false, every optional absent and no metadata; a fresh builder fails with the name missing |
| Scenarios.MinimalPostBody | src/test/java/com/google/cloud/metrics/MetricsUtilsTest.java:296-336 | an event built from name, type and client id alone is sent as exactly twelve pairs, with no `dt` and with `cd19` the bare type |
| Scenarios.FullPostBody | src/test/java/com/google/cloud/metrics/MetricsUtilsTest.java:240-294 | an event with every optional field non-empty and some metadata is sent as all seventeen pairs |
| Scenarios.CombinedTypeExamples | src/test/java/com/google/cloud/metrics/MetricsUtilsTest.java:84-94 | `testEventType/testObjectType` with an object type, `testEventType` without |
| Scenarios.EscapeExample | src/test/java/com/google/cloud/metrics/MetricsUtilsTest.java:60-65 | each of `,`, `=`, `\` gains one backslash |
| Scenarios.CacheBusterDigits | src/test/java/com/google/cloud/metrics/MetricsUtilsTest.java:98 | the draw 12345 is sent as `z=12345` |
| Scenarios.VirtualPageNameExample | src/test/java/com/google/cloud/metrics/MetricsUtilsTest.java:76-82 | without an object type the page name is `/virtual/testEventType/testEventName` |
| Scenarios.VirtualPageNameObjectExample | src/test/java/com/google/cloud/metrics/MetricsUtilsTest.java:68-74 | with one it is `/virtual/testEventType/testObjectType/testEventName` |
| Scenarios.PostBodyTitleExample | src/test/java/com/google/cloud/metrics/MetricsUtilsTest.java:255-290 | the metadata entry `key1,` → `value1=\` gives the title `key1\,=value1\=\\` |

## Left out

- Form encoding. `buildPostBody` wraps the list in `UrlEncodedFormEntity` (UTF-8
  percent-encoding). The model stops at the parameter list: `Wire` gives the names
  and values that would be encoded.
- Randomness. `Random.nextLong()` is the `draw` input. Every 64-bit value is
  allowed, because the source allows any.
- Null checks (`checkNotNull`) and the `NullPointerException` they throw. Dafny values
  cannot be null, so these paths do not exist in the model.
- The senders (`MetricsSender`, `AsyncMetricsSender`), the HTTP client, the logger,
  `USER_AGENT`, `GA_ENDPOINT_URL` and the exception classes. They are I/O around the
  encoder.
- `IllegalStateException` from `build()`. It is modelled as `Failure(MissingName |
  MissingType | MissingClientId)`.
- Event getters and the `Event` constructor. They copy fields, which the `Event`
  datatype does directly.
- Events.Put: models the overwrite documented on `addMetadata` (last write wins,
  overwritten entry keeps its position). The Java builder delegates to Guava's
  `ImmutableMap.Builder`, and its `build()` is not part of this model. Guava documents
  that `build()` throws on duplicate keys, which would contradict the documented
  overwrite. The model follows the documentation.
- Events.Builder.Build: fails only for an unset name, type or client id. In the
  Java code `build()` also calls Guava's `ImmutableMap.Builder.build()`
  (Event.java:274,286), which may throw `IllegalArgumentException` after
  `addMetadata` was called twice with one key. The model follows the documented
  overwrite instead, as the `Events.Put` line above explains.
- Events.Builder.AddMetadata: iteration order of the map is insertion order. This
  holds for `ImmutableMap`, the only map `build()` creates. A caller passing some
  other `Map` to `buildVirtualPageTitle` is not modelled.
- MetricsUtils.VirtualPageName: the segment split is proved only for inputs without
  `/`. The Java method does not escape `/`, so an input containing one splits
  differently, in the model as in the source.
- MetricsUtils.CombinedType: an object type that is present but empty still adds a
  `/` (giving `type/`), as Guava's `skipNulls()` skips only absent values. The same
  holds for the page name, where it gives `//`.
- Scenarios: the three-entry title of `testCreateVirtualPageTitle` is not restated
  as a literal lemma. Comparing long string literals character by character is
  costly for the solver. `PostBodyTitleExample` covers the escaping of `,`, `=` and
  `\` in a key and in a value, and `VirtualPageTitleSnoc` covers the `,` between
  entries.
