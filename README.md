# Karafka consumer-group settings schema

Karafka validates the settings of a consumer group before it opens any
connection: `Karafka::Schemas::ConsumerGroup.call(config)` takes a loosely
typed settings hash and returns a result that is a success only when every
required setting is present, every setting that is given is of the right
kind, in range and well formatted, and when `max_wait_time` does not exceed
`socket_timeout`. Failures are
collected as data, keyed by the path of the offending setting, and never
raised.

This project models that validator as pure Dafny:

- `Values` — the Ruby values a settings hash holds: nil, strings, symbols,
  integers, floats, booleans, arrays, hashes, and opaque object references
  such as the `controller` and `parser` classes of a topic, which are
  checked for presence only (present and not nil).
- `Uris` — a small total URI parser (`scheme "://" host [":" port] path`)
  with its renderer, and the seed-broker predicate: an allowed scheme and
  an explicit port. Malformed text parses to `None`, so the check cannot
  raise.
- `Predicates` — the checks a rule chains (type, filled, bound,
  identifier pattern, broker URI, enum membership), each with its error
  code, and `FirstFailure`, which runs a chain and stops at the first check
  that fails.
- `Rules` — the schema engine. A schema is a table of field rules (a
  required or optional key with a check chain, plus a rule for the
  elements of an array value) and cross-field rules. `Validate` evaluates
  every field independently, applies a cross-field rule only when both of
  its fields are free of errors, and returns the error map.
- `ConsumerGroup` — the consumer-group rule table, the same contract
  written directly as the predicate `ValidConfig`, the test fixture, and
  the accept/reject behaviour of the test suite stated and proved for every
  document rather than for one example.

The central result is `ConsumerGroup.ValidateMatchesContract`: the rule
table accepts a document exactly when `ValidConfig` holds. The
per-setting lemmas then say which error code lands on which path for any
document in which one setting is replaced by an arbitrary value.

## Model

| member | source | states |
|---|---|---|
| ConsumerGroup.Fields | spec/lib/karafka/schemas/consumer_group_spec.rb:21-44 | the top-level rule table, one entry per setting: id a string matching the identifier pattern (lines 60-75); seed_brokers a non-empty array of broker URIs (77-107); session_timeout, offset_commit_interval, offset_commit_threshold and heartbeat_interval required integers (110-163); offset_retention_time nil or an integer (146-151); connect_timeout and socket_timeout integers > 0 (165-207); max_wait_time an integer >= 0 (209-224); min_bytes an integer >= 1 (226-246); batch_fetching a boolean (248-258); topics a non-empty array of topic hashes (50-58); the nine ssl/sasl settings nil or a string (268-290). Assumptions of the model, beyond what the tests pin: the identifier pattern (letters, digits, `_`, `-`), the bound 0 of max_wait_time, and the bound of the timeouts for values between 1 and 9 |
| ConsumerGroup.TopicRules | spec/lib/karafka/schemas/consumer_group_spec.rb:6-20 | the rules of one topic, which the fixture topic satisfies: id a string matching the identifier pattern, name a non-empty string, backend one of `:inline` and `:sidekiq`, controller and parser present and not nil, max_bytes_per_partition an integer > 0, start_from_beginning, batch_consuming and persistent booleans. No test rejects a topic, so every entry beyond the fixture's acceptance is an assumption of the model: the id pattern, the non-empty name, the backend set and the bounds |
| ConsumerGroup.ValidConfig | spec/lib/karafka/schemas/consumer_group_spec.rb:21-44 | the reference contract written without the rule table: every setting valid on its own (ValidFields, with ValidBrokers, ValidTopics and ValidCredentials) and max_wait_time <= socket_timeout |
| Uris.ParseUri | spec/lib/karafka/schemas/consumer_group_spec.rb:93-107 | total parser of `scheme "://" host [":" digits] path`; anything it returns is well formed (that it accepts exactly such text is `ParseUriExactly`) |
| Uris.ParseUriExactly | spec/lib/karafka/schemas/consumer_group_spec.rb:93-107 | `ParseUri(s) == Some(u)` exactly when `u` is well formed and `s` is `u`'s scheme, `://`, host, a spelling of its port and path; all other text, such as `#$%^&*()`, gives None |
| Uris.ParseUriText | spec/lib/karafka/schemas/consumer_group_spec.rb:103-107 | whatever the parser returns is spelled out by its input text, with the port written as nothing or `:` when absent and as `:` and digits denoting it when present |
| Uris.ParseSpelled | spec/lib/karafka/schemas/consumer_group_spec.rb:25 | every spelling of a well-formed URI, leading zeros in the port included, parses back to that URI |
| Uris.PercentIsNotBroker | spec/lib/karafka/schemas/consumer_group_spec.rb:103-107 | text containing `%` anywhere, a bare `%` in the path included, is not a broker |
| Uris.IsBroker | spec/lib/karafka/schemas/consumer_group_spec.rb:93-107 | the seed-broker check: the text parses, its scheme is kafka or kafka+ssl, and it has an explicit port |
| ConsumerGroup.WrongSchemeWithPortRejected | spec/lib/karafka/schemas/consumer_group_spec.rb:93-96 | `https://github.com:80/karafka`, with its port in the authority, is still not a broker: the scheme check alone rejects it |
| ConsumerGroup.ValidateMatchesContract | spec/lib/karafka/schemas/consumer_group_spec.rb:3-291 | the schema accepts a document exactly when every setting satisfies its own rule and max_wait_time <= socket_timeout |
| ConsumerGroup.FieldTableMatchesContract | spec/lib/karafka/schemas/consumer_group_spec.rb:21-44 | every field rule of the table holds on a document exactly when the direct field-by-field contract `ValidFields` holds |
| ConsumerGroup.TopicRulesMatchContract | spec/lib/karafka/schemas/consumer_group_spec.rb:6-20 | a topic hash satisfies all nine topic rules exactly when it satisfies `ValidTopic` (identifier id, non-empty name, known backend, controller and parser present and not nil, positive max_bytes_per_partition, three booleans) |
| ConsumerGroup.FixtureValid | spec/lib/karafka/schemas/consumer_group_spec.rb:6-44 | the test fixture satisfies the direct contract |
| ConsumerGroup.FixtureAccepted | spec/lib/karafka/schemas/consumer_group_spec.rb:46-48 | the test fixture validates successfully |
| ConsumerGroup.ExtraSettingsIgnored | spec/lib/karafka/schemas/consumer_group_spec.rb:24-38 | topic_mapper, pause_timeout, max_bytes_per_partition and start_from_beginning are constrained by no rule: any value there leaves the result unchanged |
| ConsumerGroup.TopicsVerdict | spec/lib/karafka/schemas/consumer_group_spec.rb:50-58 | `topics` gets an error exactly when it is not a non-empty array; an empty array is an empty-collection error, nil or any other kind a type error |
| ConsumerGroup.IdVerdict | spec/lib/karafka/schemas/consumer_group_spec.rb:60-75 | `id` gets an error exactly when it is not a non-empty string of letters, digits, `_` and `-`; a non-string (nil, 2) is a type error, a bad string (`%^&*(`) a format error |
| ConsumerGroup.SeedBrokersVerdict | spec/lib/karafka/schemas/consumer_group_spec.rb:77-91 | `seed_brokers` gets an error exactly when it is not a non-empty array; empty is an empty-collection error, nil or a string a type error |
| ConsumerGroup.BadBrokerReported | spec/lib/karafka/schemas/consumer_group_spec.rb:93-107 | an entry of `seed_brokers` that is not a broker URI is reported at its index, as a format error for a string and a type error otherwise |
| ConsumerGroup.WrongSchemeRejected | spec/lib/karafka/schemas/consumer_group_spec.rb:93-96 | `https://github.com/karafka:80` is not a broker URI; as parsed here `:80` is part of the path, so the URI lacks both an allowed scheme and a port |
| ConsumerGroup.MissingPortRejected | spec/lib/karafka/schemas/consumer_group_spec.rb:98-101 | `kafka://github.com/karafka` is not a broker URI (it has no port) |
| ConsumerGroup.JunkBrokerRejected | spec/lib/karafka/schemas/consumer_group_spec.rb:103-107 | `#$%^&*()` is not a broker URI; the check is total, so the result and its errors are always defined |
| Uris.BrokerIffSchemeAndPort | spec/lib/karafka/schemas/consumer_group_spec.rb:93-101 | the rendering of a well-formed URI is a broker exactly when its scheme is allowed and it has a port |
| Uris.ParseRender | spec/lib/karafka/schemas/consumer_group_spec.rb:25 | parsing the rendering of a well-formed URI gives that URI back |
| Uris.DigitsRoundTrip | spec/lib/karafka/schemas/consumer_group_spec.rb:25 | the decimal rendering of a port reads back as the same number |
| ConsumerGroup.RequiredIntegerVerdict | spec/lib/karafka/schemas/consumer_group_spec.rb:110-163 | session_timeout, offset_commit_interval, offset_commit_threshold and heartbeat_interval each get an error exactly when they are not integers (nil and `'s'` included), always a type error |
| ConsumerGroup.OffsetRetentionVerdict | spec/lib/karafka/schemas/consumer_group_spec.rb:146-151 | offset_retention_time gets an error exactly when it is neither nil nor an integer, a type error |
| ConsumerGroup.OffsetRetentionOptional | spec/lib/karafka/schemas/consumer_group_spec.rb:146-151 | leaving offset_retention_time out puts no error on it |
| ConsumerGroup.PositiveTimeoutVerdict | spec/lib/karafka/schemas/consumer_group_spec.rb:165-207 | connect_timeout and socket_timeout get an error exactly when they are not integers greater than 0; 0 and -1 are range errors, nil and `'s'` type errors |
| ConsumerGroup.MaxWaitTimeReported | spec/lib/karafka/schemas/consumer_group_spec.rb:209-224 | a max_wait_time that is not an integer >= 0 is reported on its own path: -1 as a range error, nil or `'s'` as a type error, whatever socket_timeout is |
| ConsumerGroup.MinBytesVerdict | spec/lib/karafka/schemas/consumer_group_spec.rb:226-246 | min_bytes gets an error exactly when it is not an integer >= 1; 0 is a range error, nil, `'s'` and any Float a type error |
| ConsumerGroup.BatchFetchingVerdict | spec/lib/karafka/schemas/consumer_group_spec.rb:248-258 | batch_fetching gets an error exactly when it is not a boolean (nil and 2 included), a type error |
| ConsumerGroup.WaitWithinSocketVerdict | spec/lib/karafka/schemas/consumer_group_spec.rb:260-266 | with both settings valid on their own, max_wait_time gets an error exactly when it exceeds socket_timeout, and it is a range error |
| ConsumerGroup.CredentialVerdict | spec/lib/karafka/schemas/consumer_group_spec.rb:268-290 | each of the nine ssl/sasl settings gets an error exactly when it is neither nil nor a string (2 included), a type error |
| ConsumerGroup.CredentialNilOrStringAccepted | spec/lib/karafka/schemas/consumer_group_spec.rb:280-283 | setting any ssl/sasl setting of a valid document to nil or to a string keeps it valid |
| ConsumerGroup.TopicNotHashReported | spec/lib/karafka/schemas/consumer_group_spec.rb:6-20 | an element of `topics` that is not a hash is a type error at its index |
| ConsumerGroup.TopicFieldReported | spec/lib/karafka/schemas/consumer_group_spec.rb:6-20 | a topic setting that breaks its rule is reported under the topic's index and the setting's key, with the rule's code |
| Rules.Validate | spec/lib/karafka/schemas/consumer_group_spec.rb:46-48 | a result is a success exactly when every field rule and every cross-field rule holds |
| Rules.OwnPathVerdict | spec/lib/karafka/schemas/consumer_group_spec.rb:60-258 | for a field on which no cross-field rule reports (every field but max_wait_time here), its own path carries an error exactly when its rule fails, and the code is that of the first failing check (a missing required key, a nil required value, or the first check of the chain) |
| Rules.CrossErrorReported | spec/lib/karafka/schemas/consumer_group_spec.rb:260-266 | a violated cross-field rule whose fields are both error-free puts a range error on its dependent field |
| Rules.UndeclaredKeyIgnored | spec/lib/karafka/schemas/consumer_group_spec.rb:21-44 | a key no rule names does not affect the result |
| Rules.AcceptedValueKeepsSuccess | spec/lib/karafka/schemas/consumer_group_spec.rb:280-283 | replacing a field of a valid document by a value its own rule accepts keeps the document valid, when no cross-field rule reads that field |
| Predicates.FirstFailure | spec/lib/karafka/schemas/consumer_group_spec.rb:66-74 | the chain passes exactly when no code is reported; a reported code is that of a failing check all of whose predecessors passed |

## Left out

- The schema declaration itself (`lib/karafka/schemas/consumer_group.rb`) is not part of this model. The rule table is rebuilt from the test fixture and the cases of the test suite. Where the tests do not pin a rule down, the model makes its own choice: `id` uses letters, digits, `_` and `-`; `min_bytes` must be >= 1; both timeouts must be > 0; `max_wait_time` must be >= 0; `offset_retention_time` may be nil or absent (the tests only reject a string there); each of the nine ssl/sasl settings may be absent (the tests only show nil accepted); each topic must satisfy the rule set of `TopicRules`.
- The allowed broker schemes (`kafka`, `kafka+ssl`) and the topic backends (`:inline`, `:sidekiq`) are assumptions. The tests only show that `kafka` is accepted, `https` is rejected and `:inline` is accepted.
- Ruby's URI library is replaced by a small parser. Its scheme match is case-sensitive, so `KAFKA://localhost:9092` is rejected here, where Ruby lower-cases the scheme and would accept it.
- The small parser knows no default ports, so `https://host` has no port here, where Ruby would give it 443. This does not change any verdict, because the scheme check rejects `https` anyway.
- The parser accepts a smaller character set than RFC 3986: no user info, no IPv6 literals, no percent-encoding, no query and no fragment. Text outside this set is simply not a broker, so a valid percent-encoded path (`/%41`), which Ruby accepts, is rejected here; a bare `%`, which Ruby rejects, is rejected here too.
- The parser demands a non-empty host, so `kafka://:9092` is not a broker here, where Ruby's RFC 3986 parser accepts the empty host and reads port 9092.
- The parser reads a bare `:` as no port and allows leading zeros in a port (`kafka://h:09` has port 9).
- Human-readable error messages are not modelled. Each path carries one symbolic code, the first failing check of its chain, rather than a list of codes.
- A cross-field error on `max_wait_time` is dropped when that field already has an error of its own. This follows the rule that a comparison runs only on fields that passed their own checks.
- Floats keep only their integral part, because the only thing any rule asks of one is that it is not an integer. The test's `rand(100) + 0.1` is covered by `MinBytesVerdict` for every Float.
- The RSpec harness, the random number in the Float test and the `not_to raise_error` expectation are not modelled. Totality of the Dafny functions stands in for the last of these.
- The rest of Karafka (routing, the topic mapper, consumers, connections) is outside this core. Its objects appear only as opaque references. A topic's `controller` and `parser` must be present and not nil; `topic_mapper` is constrained by no rule and may be absent.
