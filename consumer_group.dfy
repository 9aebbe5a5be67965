/** The consumer-group settings schema: its rule table, the same contract
    stated directly as a predicate on documents, and the accept/reject
    behaviour the test suite pins down, proved for every document. */
module ConsumerGroup {
  import opened Values
  import opened Predicates
  import opened Rules
  import Uris

  /** Processing modes a topic may name, as Ruby symbols. */
  const Backends: set<Value> := {Sym("inline"), Sym("sidekiq")}

  /** Optional credential settings: absent or nil, or else a string. */
  const CredentialKeys: seq<string> := [
    "ssl_ca_cert", "ssl_ca_cert_file_path", "ssl_client_cert", "ssl_client_cert_key",
    "sasl_plain_authzid", "sasl_plain_username", "sasl_plain_password",
    "sasl_gssapi_principal", "sasl_gssapi_keytab"
  ]

  /** The rules every element of `topics` must satisfy. */
  const TopicRules: seq<LeafRule> := [
    LeafRule("id", Required, [IsStr, Identifier]),
    LeafRule("name", Required, [IsStr, Filled]),
    LeafRule("backend", Required, [IncludedIn(Backends)]),
    LeafRule("controller", Required, []),
    LeafRule("parser", Required, []),
    LeafRule("max_bytes_per_partition", Required, [IsInt, Gt(0)]),
    LeafRule("start_from_beginning", Required, [IsBool]),
    LeafRule("batch_consuming", Required, [IsBool]),
    LeafRule("persistent", Required, [IsBool])
  ]

  /** The top-level field rules, in declaration order. */
  const Fields: seq<FieldRule> := [
    FieldRule(LeafRule("id", Required, [IsStr, Identifier]), NoElements),
    FieldRule(LeafRule("seed_brokers", Required, [IsArray, Filled]), EachValue([IsStr, BrokerUri])),
    FieldRule(LeafRule("session_timeout", Required, [IsInt]), NoElements),
    FieldRule(LeafRule("offset_commit_interval", Required, [IsInt]), NoElements),
    FieldRule(LeafRule("offset_commit_threshold", Required, [IsInt]), NoElements),
    FieldRule(LeafRule("offset_retention_time", OptionalNilable, [IsInt]), NoElements),
    FieldRule(LeafRule("heartbeat_interval", Required, [IsInt]), NoElements),
    FieldRule(LeafRule("connect_timeout", Required, [IsInt, Gt(0)]), NoElements),
    FieldRule(LeafRule("socket_timeout", Required, [IsInt, Gt(0)]), NoElements),
    FieldRule(LeafRule("max_wait_time", Required, [IsInt, Gteq(0)]), NoElements),
    FieldRule(LeafRule("min_bytes", Required, [IsInt, Gteq(1)]), NoElements),
    FieldRule(LeafRule("batch_fetching", Required, [IsBool]), NoElements),
    FieldRule(LeafRule("topics", Required, [IsArray, Filled]), EachSchema(TopicRules)),
    FieldRule(LeafRule(CredentialKeys[0], OptionalNilable, [IsStr]), NoElements),
    FieldRule(LeafRule(CredentialKeys[1], OptionalNilable, [IsStr]), NoElements),
    FieldRule(LeafRule(CredentialKeys[2], OptionalNilable, [IsStr]), NoElements),
    FieldRule(LeafRule(CredentialKeys[3], OptionalNilable, [IsStr]), NoElements),
    FieldRule(LeafRule(CredentialKeys[4], OptionalNilable, [IsStr]), NoElements),
    FieldRule(LeafRule(CredentialKeys[5], OptionalNilable, [IsStr]), NoElements),
    FieldRule(LeafRule(CredentialKeys[6], OptionalNilable, [IsStr]), NoElements),
    FieldRule(LeafRule(CredentialKeys[7], OptionalNilable, [IsStr]), NoElements),
    FieldRule(LeafRule(CredentialKeys[8], OptionalNilable, [IsStr]), NoElements)
  ]

  /** The schema: field rules plus "max_wait_time must not exceed
      socket_timeout", reported on max_wait_time. */
  const ConsumerGroupSchema: Schema := Schema(Fields, [NotGreaterThan("max_wait_time", "socket_timeout")])

  // ---------------------------------------------------------------------
  // The contract, stated field by field without the rule table.

  predicate StrAt(m: map<string, Value>, k: string) { k in m && m[k].Str? }
  predicate IntAt(m: map<string, Value>, k: string) { k in m && m[k].Int? }
  predicate BoolAt(m: map<string, Value>, k: string) { k in m && m[k].Bool? }

  predicate ValidTopic(t: Value) {
    && t.Hash?
    && StrAt(t.fields, "id") && IsIdentifier(t.fields["id"].s)
    && StrAt(t.fields, "name") && t.fields["name"].s != ""
    && "backend" in t.fields && t.fields["backend"] in {Sym("inline"), Sym("sidekiq")}
    && "controller" in t.fields && !t.fields["controller"].Nil?
    && "parser" in t.fields && !t.fields["parser"].Nil?
    && IntAt(t.fields, "max_bytes_per_partition") && t.fields["max_bytes_per_partition"].i > 0
    && BoolAt(t.fields, "start_from_beginning")
    && BoolAt(t.fields, "batch_consuming")
    && BoolAt(t.fields, "persistent")
  }

  predicate ValidBrokers(v: Value) {
    v.Arr? && |v.items| > 0 && forall j :: 0 <= j < |v.items| ==> v.items[j].Str? && Uris.IsBroker(v.items[j].s)
  }

  predicate ValidTopics(v: Value) {
    v.Arr? && |v.items| > 0 && forall j :: 0 <= j < |v.items| ==> ValidTopic(v.items[j])
  }

  predicate ValidCredentials(doc: Doc) {
    forall c :: 0 <= c < |CredentialKeys| ==>
      CredentialKeys[c] !in doc || doc[CredentialKeys[c]].Nil? || doc[CredentialKeys[c]].Str?
  }

  /** Every field is well-formed on its own. */
  predicate ValidFields(doc: Doc) {
    && StrAt(doc, "id") && IsIdentifier(doc["id"].s)
    && "seed_brokers" in doc && ValidBrokers(doc["seed_brokers"])
    && IntAt(doc, "session_timeout")
    && IntAt(doc, "offset_commit_interval")
    && IntAt(doc, "offset_commit_threshold")
    && ("offset_retention_time" !in doc || doc["offset_retention_time"].Nil? || doc["offset_retention_time"].Int?)
    && IntAt(doc, "heartbeat_interval")
    && IntAt(doc, "connect_timeout") && doc["connect_timeout"].i > 0
    && IntAt(doc, "socket_timeout") && doc["socket_timeout"].i > 0
    && IntAt(doc, "max_wait_time") && doc["max_wait_time"].i >= 0
    && IntAt(doc, "min_bytes") && doc["min_bytes"].i >= 1
    && BoolAt(doc, "batch_fetching")
    && "topics" in doc && ValidTopics(doc["topics"])
    && ValidCredentials(doc)
  }

  /** A well-formed consumer-group document: every field on its own, and a
      poll wait no longer than the socket timeout. */
  predicate ValidConfig(doc: Doc) {
    ValidFields(doc) && doc["max_wait_time"].i <= doc["socket_timeout"].i
  }

  /** The topic rules spelled out one by one. */
  lemma TopicChecks(t: Value)
    requires t.Hash?
    ensures forall k | 0 <= k < |TopicRules| && TopicRules[k].key in t.fields ::
              Passes(TopicRules[k].chain, t.fields[TopicRules[k].key]) <==>
                (|TopicRules[k].chain| < 1 || Holds(TopicRules[k].chain[0], t.fields[TopicRules[k].key]))
                && (|TopicRules[k].chain| < 2 || Holds(TopicRules[k].chain[1], t.fields[TopicRules[k].key]))
  {
    forall k | 0 <= k < |TopicRules| && TopicRules[k].key in t.fields {
      PassesShort(TopicRules[k].chain, t.fields[TopicRules[k].key]);
    }
  }

  lemma TopicRulesSound(t: Value)
    requires ItemHolds(EachSchema(TopicRules), t)
    ensures ValidTopic(t)
  {
    TopicChecks(t);
    assert LeafHolds(TopicRules[0], t.fields);
    assert LeafHolds(TopicRules[1], t.fields);
    assert LeafHolds(TopicRules[2], t.fields);
    assert LeafHolds(TopicRules[3], t.fields);
    assert LeafHolds(TopicRules[4], t.fields);
    assert LeafHolds(TopicRules[5], t.fields);
    assert LeafHolds(TopicRules[6], t.fields);
    assert LeafHolds(TopicRules[7], t.fields);
    assert LeafHolds(TopicRules[8], t.fields);
  }

  lemma TopicRulesComplete(t: Value)
    requires ValidTopic(t)
    ensures ItemHolds(EachSchema(TopicRules), t)
  {
    TopicChecks(t);
    forall i | 0 <= i < |TopicRules| ensures LeafHolds(TopicRules[i], t.fields) {
      // One empty branch per entry, so that each entry of the literal
      // table is looked at on its own.
      if i == 0 {} else if i == 1 {} else if i == 2 {} else if i == 3 {} else if i == 4 {} else if i == 5 {} else if i == 6 {} else if i == 7 {} else {}
    }
  }

  /** The topic sub-schema accepts exactly the well-formed topics. */
  lemma TopicRulesMatchContract(t: Value)
    ensures ItemHolds(EachSchema(TopicRules), t) <==> ValidTopic(t)
  {
    if ItemHolds(EachSchema(TopicRules), t) { TopicRulesSound(t); }
    if ValidTopic(t) { TopicRulesComplete(t); }
  }

  /** The seed-broker rule accepts exactly a non-empty array of broker
      URIs. */
  lemma SeedBrokersRuleMeaning(doc: Doc)
    ensures FieldHolds(Fields[1], doc) <==> "seed_brokers" in doc && ValidBrokers(doc["seed_brokers"])
  {
    SeedBrokersEntry();
    if "seed_brokers" in doc {
      var v := doc["seed_brokers"];
      PassesShort([IsArray, Filled], v);
      if v.Arr? {
        BrokerItemsMeaning(v.items);
      }
    }
  }

  /** The element rule of `seed_brokers`, element by element. */
  lemma BrokerItemsMeaning(items: seq<Value>)
    ensures (forall j :: 0 <= j < |items| ==> ItemHolds(EachValue([IsStr, BrokerUri]), items[j]))
            <==> (forall j :: 0 <= j < |items| ==> items[j].Str? && Uris.IsBroker(items[j].s))
  {
    forall j | 0 <= j < |items|
      ensures ItemHolds(EachValue([IsStr, BrokerUri]), items[j]) <==> items[j].Str? && Uris.IsBroker(items[j].s)
    {
      PassesShort([IsStr, BrokerUri], items[j]);
    }
  }

  lemma FieldRulesMeaning1(doc: Doc)
    ensures FieldHolds(Fields[0], doc) <==> StrAt(doc, "id") && IsIdentifier(doc["id"].s)
    ensures FieldHolds(Fields[2], doc) <==> IntAt(doc, "session_timeout")
  {
    IdEntry();
    SessionTimeoutEntry();
    if "id" in doc { PassesShort(Fields[0].leaf.chain, doc["id"]); }
    if "session_timeout" in doc { PassesShort(Fields[2].leaf.chain, doc["session_timeout"]); }
  }

  lemma FieldRulesMeaning2(doc: Doc)
    ensures FieldHolds(Fields[3], doc) <==> IntAt(doc, "offset_commit_interval")
    ensures FieldHolds(Fields[4], doc) <==> IntAt(doc, "offset_commit_threshold")
    ensures FieldHolds(Fields[5], doc) <==> ("offset_retention_time" !in doc || doc["offset_retention_time"].Nil? || doc["offset_retention_time"].Int?)
    ensures FieldHolds(Fields[6], doc) <==> IntAt(doc, "heartbeat_interval")
    ensures FieldHolds(Fields[7], doc) <==> IntAt(doc, "connect_timeout") && doc["connect_timeout"].i > 0
    ensures FieldHolds(Fields[8], doc) <==> IntAt(doc, "socket_timeout") && doc["socket_timeout"].i > 0
  {
    OffsetCommitIntervalEntry();
    OffsetCommitThresholdEntry();
    OffsetRetentionEntry();
    HeartbeatIntervalEntry();
    ConnectTimeoutEntry();
    SocketTimeoutEntry();
    if "offset_commit_interval" in doc { PassesShort(Fields[3].leaf.chain, doc["offset_commit_interval"]); }
    if "offset_commit_threshold" in doc { PassesShort(Fields[4].leaf.chain, doc["offset_commit_threshold"]); }
    if "offset_retention_time" in doc { PassesShort(Fields[5].leaf.chain, doc["offset_retention_time"]); }
    if "heartbeat_interval" in doc { PassesShort(Fields[6].leaf.chain, doc["heartbeat_interval"]); }
    if "connect_timeout" in doc { PassesShort(Fields[7].leaf.chain, doc["connect_timeout"]); }
    if "socket_timeout" in doc { PassesShort(Fields[8].leaf.chain, doc["socket_timeout"]); }
  }

  lemma FieldRulesMeaning3(doc: Doc)
    ensures FieldHolds(Fields[9], doc) <==> IntAt(doc, "max_wait_time") && doc["max_wait_time"].i >= 0
    ensures FieldHolds(Fields[10], doc) <==> IntAt(doc, "min_bytes") && doc["min_bytes"].i >= 1
    ensures FieldHolds(Fields[11], doc) <==> BoolAt(doc, "batch_fetching")
    ensures FieldHolds(Fields[12], doc) <==> "topics" in doc && ValidTopics(doc["topics"])
  {
    if "topics" in doc && doc["topics"].Arr? {
      forall j | 0 <= j < |doc["topics"].items| {
        TopicRulesMatchContract(doc["topics"].items[j]);
      }
    }
    MaxWaitTimeEntry();
    MinBytesEntry();
    BatchFetchingEntry();
    TopicsEntry();
    if "max_wait_time" in doc { PassesShort(Fields[9].leaf.chain, doc["max_wait_time"]); }
    if "min_bytes" in doc { PassesShort(Fields[10].leaf.chain, doc["min_bytes"]); }
    if "batch_fetching" in doc { PassesShort(Fields[11].leaf.chain, doc["batch_fetching"]); }
    if "topics" in doc { PassesShort(Fields[12].leaf.chain, doc["topics"]); }
  }

  lemma CredentialRulesMeaning(doc: Doc)
    ensures (forall c :: 0 <= c < |CredentialKeys| ==> FieldHolds(Fields[13..][c], doc)) <==> ValidCredentials(doc)
  {
    forall c | 0 <= c < |CredentialKeys|
      ensures FieldHolds(Fields[13..][c], doc) <==>
                (CredentialKeys[c] !in doc || doc[CredentialKeys[c]].Nil? || doc[CredentialKeys[c]].Str?)
    {
      CredentialEntry(c);
      assert Fields[13..][c] == Fields[13 + c];
      if CredentialKeys[c] in doc { PassesShort([IsStr], doc[CredentialKeys[c]]); }
    }
  }

  /** The field table accepts exactly the documents whose fields are each
      well-formed. */
  lemma FieldTableMatchesContract(doc: Doc)
    ensures (forall i :: 0 <= i < |Fields| ==> FieldHolds(Fields[i], doc)) <==> ValidFields(doc)
  {
    FieldRulesMeaning1(doc);
    SeedBrokersRuleMeaning(doc);
    FieldRulesMeaning2(doc);
    FieldRulesMeaning3(doc);
    CredentialRulesMeaning(doc);
    if forall i :: 0 <= i < |Fields| ==> FieldHolds(Fields[i], doc) {
      assert FieldHolds(Fields[0], doc);
      assert FieldHolds(Fields[1], doc);
      assert FieldHolds(Fields[2], doc);
      assert FieldHolds(Fields[3], doc);
      assert FieldHolds(Fields[4], doc);
      assert FieldHolds(Fields[5], doc);
      assert FieldHolds(Fields[6], doc);
      assert FieldHolds(Fields[7], doc);
      assert FieldHolds(Fields[8], doc);
      assert FieldHolds(Fields[9], doc);
      assert FieldHolds(Fields[10], doc);
      assert FieldHolds(Fields[11], doc);
      assert FieldHolds(Fields[12], doc);
      assert forall c :: 0 <= c < |CredentialKeys| ==> FieldHolds(Fields[13..][c], doc);
    }
    if ValidFields(doc) {
      forall i | 0 <= i < |Fields| ensures FieldHolds(Fields[i], doc) {
        if i >= 13 {
          assert FieldHolds(Fields[13..][i - 13], doc);
        } else {
          // One empty branch per entry, as in TopicRulesComplete.
          if i == 0 {} else if i == 1 {} else if i == 2 {} else if i == 3 {} else if i == 4 {} else if i == 5 {} else if i == 6 {} else if i == 7 {} else if i == 8 {} else if i == 9 {} else if i == 10 {} else if i == 11 {} else {}
        }
      }
    }
  }

  /** The rule table accepts exactly the well-formed documents. */
  lemma ValidateMatchesContract(doc: Doc)
    ensures Validate(ConsumerGroupSchema, doc).Success() <==> ValidConfig(doc)
  {
    FieldTableMatchesContract(doc);
    assert ConsumerGroupSchema.cross[0] == NotGreaterThan("max_wait_time", "socket_timeout");
  }

  // ---------------------------------------------------------------------
  // The test fixture and the behaviour the test suite pins down, proved
  // for every document.

  /** The report for a document. */
  function ErrorsOf(doc: Doc): Errors {
    Validate(ConsumerGroupSchema, doc).errors
  }

  const FixtureTopic: Value := Hash(map[
    "id" := Str("id"),
    "name" := Str("name"),
    "backend" := Sym("inline"),
    "controller" := Opaque(1),
    "parser" := Opaque(2),
    "max_bytes_per_partition" := Int(1),
    "start_from_beginning" := Bool(true),
    "batch_consuming" := Bool(true),
    "persistent" := Bool(false)
  ])

  /** The fixture's only seed broker. */
  const FixtureBrokerText: string := "kafka://localhost:9092"

  /** The valid document of the test suite, extra settings included. */
  const Fixture: Doc := map[
    "id" := Str("id"),
    "topic_mapper" := Opaque(3),
    "seed_brokers" := Arr([Str(FixtureBrokerText)]),
    "offset_commit_interval" := Int(1),
    "offset_commit_threshold" := Int(1),
    "heartbeat_interval" := Int(1),
    "session_timeout" := Int(1),
    "ssl_ca_cert" := Str("ca_cert"),
    "ssl_client_cert" := Str("client_cert"),
    "ssl_client_cert_key" := Str("client_cert_key"),
    "max_bytes_per_partition" := Int(1048576),
    "offset_retention_time" := Int(1000),
    "start_from_beginning" := Bool(true),
    "connect_timeout" := Int(10),
    "socket_timeout" := Int(10),
    "pause_timeout" := Int(10),
    "max_wait_time" := Int(10),
    "batch_fetching" := Bool(true),
    "topics" := Arr([FixtureTopic]),
    "min_bytes" := Int(1)
  ]

  lemma FieldKeysDistinct()
    ensures DistinctKeys(Fields)
  {
  }

  // Single entries of the field table. Each lemma states one entry of the
  // literal `Fields`; the lemmas below call the entries they need instead
  // of unfolding the whole 22-entry table in every proof, which keeps each
  // proof small.

  lemma IdEntry()
    ensures Fields[0] == FieldRule(LeafRule("id", Required, [IsStr, Identifier]), NoElements)
  {
  }

  lemma SeedBrokersEntry()
    ensures Fields[1] == FieldRule(LeafRule("seed_brokers", Required, [IsArray, Filled]), EachValue([IsStr, BrokerUri]))
  {
  }

  lemma SessionTimeoutEntry()
    ensures Fields[2] == FieldRule(LeafRule("session_timeout", Required, [IsInt]), NoElements)
  {
  }

  lemma OffsetCommitIntervalEntry()
    ensures Fields[3] == FieldRule(LeafRule("offset_commit_interval", Required, [IsInt]), NoElements)
  {
  }

  lemma OffsetCommitThresholdEntry()
    ensures Fields[4] == FieldRule(LeafRule("offset_commit_threshold", Required, [IsInt]), NoElements)
  {
  }

  lemma HeartbeatIntervalEntry()
    ensures Fields[6] == FieldRule(LeafRule("heartbeat_interval", Required, [IsInt]), NoElements)
  {
  }

  lemma OffsetRetentionEntry()
    ensures Fields[5] == FieldRule(LeafRule("offset_retention_time", OptionalNilable, [IsInt]), NoElements)
  {
  }

  lemma ConnectTimeoutEntry()
    ensures Fields[7] == FieldRule(LeafRule("connect_timeout", Required, [IsInt, Gt(0)]), NoElements)
  {
  }

  lemma SocketTimeoutEntry()
    ensures Fields[8] == FieldRule(LeafRule("socket_timeout", Required, [IsInt, Gt(0)]), NoElements)
  {
  }

  lemma MaxWaitTimeEntry()
    ensures Fields[9] == FieldRule(LeafRule("max_wait_time", Required, [IsInt, Gteq(0)]), NoElements)
  {
  }

  lemma MinBytesEntry()
    ensures Fields[10] == FieldRule(LeafRule("min_bytes", Required, [IsInt, Gteq(1)]), NoElements)
  {
  }

  lemma BatchFetchingEntry()
    ensures Fields[11] == FieldRule(LeafRule("batch_fetching", Required, [IsBool]), NoElements)
  {
  }

  lemma TopicsEntry()
    ensures Fields[12] == FieldRule(LeafRule("topics", Required, [IsArray, Filled]), EachSchema(TopicRules))
  {
  }

  lemma CredentialEntry(c: nat)
    requires c < |CredentialKeys|
    ensures 13 + c < |Fields|
    ensures Fields[13 + c] == FieldRule(LeafRule(CredentialKeys[c], OptionalNilable, [IsStr]), NoElements)
    ensures CredentialKeys[c] != "max_wait_time" && CredentialKeys[c] != "socket_timeout"
  {
    assert Fields[13 + c] == Fields[13..][c];
  }

  /** A field other than max_wait_time has an error on its own path exactly
      when its own rule fails, and the code is that rule's verdict. */
  lemma FieldVerdict(doc: Doc, i: nat, r: LeafRule)
    requires i < |Fields| && Fields[i].leaf == r && r.key != "max_wait_time"
    ensures [Key(r.key)] in ErrorsOf(doc) <==> !LeafHolds(r, doc)
    ensures [Key(r.key)] in ErrorsOf(doc) ==> Some(ErrorsOf(doc)[[Key(r.key)]]) == LeafVerdict(r, doc)
  {
    FieldKeysDistinct();
    OwnPathVerdict(ConsumerGroupSchema, doc, i);
  }

  // Lemmas about literal URIs take the URI as a parameter pinned by a
  // `requires`: its well-formedness and its text are then proved
  // separately, each on a small goal, and combined by the caller.

  lemma LocalPortDigits()
    ensures Uris.Digits(9092) == "9092"
  {
    assert Uris.Digits(9) == "9";
    assert Uris.Digits(90) == "90";
    assert Uris.Digits(909) == "909";
  }

  lemma LocalBrokerShape(u: Uris.Uri)
    requires u == Uris.Uri("kafka", "localhost", Some(9092), "")
    ensures Uris.WellFormed(u) && u.scheme in Uris.AllowedSchemes
  {
  }

  lemma LocalBrokerText(u: Uris.Uri)
    requires u == Uris.Uri("kafka", "localhost", Some(9092), "")
    ensures Uris.Render(u) == "kafka://localhost:9092"
  {
    LocalPortDigits();
  }

  /** The rendering of a well-formed URI with an allowed scheme and a port
      is a broker. */
  lemma RenderedBroker(u: Uris.Uri, s: string)
    requires Uris.WellFormed(u) && s == Uris.Render(u)
    requires u.scheme in Uris.AllowedSchemes && u.port.Some?
    ensures Uris.IsBroker(s)
  {
    Uris.BrokerIffSchemeAndPort(u);
  }

  /** The fixture's broker. */
  lemma FixtureBroker()
    ensures Uris.IsBroker(FixtureBrokerText)
  {
    var u := Uris.Uri("kafka", "localhost", Some(9092), "");
    LocalBrokerShape(u);
    LocalBrokerText(u);
    RenderedBroker(u, FixtureBrokerText);
  }

  /** The fixture validates. */
  lemma FixtureTopicValid()
    ensures ValidTopic(FixtureTopic)
  {
  }

  lemma FixtureLookups()
    ensures "id" in Fixture && Fixture["id"] == Str("id")
    ensures "seed_brokers" in Fixture && Fixture["seed_brokers"] == Arr([Str(FixtureBrokerText)])
    ensures "topics" in Fixture && Fixture["topics"] == Arr([FixtureTopic])
  {
  }

  lemma FixtureCredentials()
    ensures ValidCredentials(Fixture)
  {
  }
  lemma SingleBrokerValid(v: Value)
    requires v == Arr([Str(FixtureBrokerText)])
    ensures ValidBrokers(v)
  {
    FixtureBroker();
  }

  lemma FixtureBrokersValid()
    ensures "seed_brokers" in Fixture && ValidBrokers(Fixture["seed_brokers"])
  {
    FixtureLookups();
    SingleBrokerValid(Fixture["seed_brokers"]);
  }

  lemma FixtureTopicsValid()
    ensures "topics" in Fixture && ValidTopics(Fixture["topics"])
  {
    FixtureTopicValid();
    FixtureLookups();
  }

  lemma FixtureValid()
    ensures ValidConfig(Fixture)
  {
    FixtureBrokersValid();
    FixtureTopicsValid();
    FixtureCredentials();
    FixtureLookups();
  }

  /** The fixture validates. */
  lemma FixtureAccepted()
    ensures Validate(ConsumerGroupSchema, Fixture).Success()
  {
    FixtureValid();
    ValidateMatchesContract(Fixture);
  }

  /** The fixture's extra settings are constrained by no rule: any value
      there leaves the result as it was. */
  lemma ExtraSettingsIgnored(doc: Doc, k: string, v: Value)
    requires k in {"topic_mapper", "pause_timeout", "max_bytes_per_partition", "start_from_beginning"}
    ensures Validate(ConsumerGroupSchema, doc[k := v]) == Validate(ConsumerGroupSchema, doc)
  {
    ExtraKeysUndeclared(k);
    UndeclaredKeyIgnored(ConsumerGroupSchema, doc, k, v);
  }

  lemma ExtraKeysUndeclared(k: string)
    requires k in {"topic_mapper", "pause_timeout", "max_bytes_per_partition", "start_from_beginning"}
    ensures k !in DeclaredKeys(ConsumerGroupSchema)
  {
    forall i | 0 <= i < |Fields| ensures Fields[i].leaf.key != k {
      if i >= 13 {
        CredentialEntry(i - 13);
      }
    }
  }

  /** The verdict of a required non-empty array rule. */
  lemma NonEmptyArrayVerdict(doc: Doc, k: string, v: Value)
    ensures var r := LeafRule(k, Required, [IsArray, Filled]);
            LeafVerdict(r, doc[k := v]) ==
              if v.Arr? && v.items != [] then None
              else if v.Arr? then Some(EmptyCollection)
              else Some(WrongType)
  {
    assert doc[k := v][k] == v;
    FirstFailureOfPair(IsArray, Filled, v);
  }

  /** `topics` must be a non-empty array: nil or another kind is a type
      error, an empty array an empty-collection error. */
  lemma TopicsVerdict(doc: Doc, v: Value)
    ensures [Key("topics")] in ErrorsOf(doc["topics" := v]) <==> !(v.Arr? && v.items != [])
    ensures [Key("topics")] in ErrorsOf(doc["topics" := v]) ==>
              ErrorsOf(doc["topics" := v])[[Key("topics")]] == if v.Arr? then EmptyCollection else WrongType
  {
    TopicsEntry();
    FieldVerdict(doc["topics" := v], 12, LeafRule("topics", Required, [IsArray, Filled]));
    NonEmptyArrayVerdict(doc, "topics", v);
  }

  /** `id` must be a string matching the identifier pattern. */
  lemma IdVerdict(doc: Doc, v: Value)
    ensures [Key("id")] in ErrorsOf(doc["id" := v]) <==> !(v.Str? && IsIdentifier(v.s))
    ensures [Key("id")] in ErrorsOf(doc["id" := v]) ==>
              ErrorsOf(doc["id" := v])[[Key("id")]] == if v.Str? then FormatViolation else WrongType
  {
    IdEntry();
    FieldVerdict(doc["id" := v], 0, LeafRule("id", Required, [IsStr, Identifier]));
    IdentifierVerdict(doc, v);
  }

  /** The verdict of a rule whose chain is one type check. */
  lemma TypeCheckVerdict(doc: Doc, k: string, req: Requiredness, c: Check, v: Value)
    requires c in {IsStr, IsInt, IsBool}
    ensures LeafVerdict(LeafRule(k, req, [c]), doc[k := v]) ==
              if v.Nil? then (if req == Required then Some(WrongType) else None)
              else if Holds(c, v) then None
              else Some(WrongType)
  {
    assert doc[k := v][k] == v;
    FirstFailureOfOne(c, v);
  }

  /** The verdict of an integer rule with a lower bound. */
  lemma BoundedIntegerVerdict(doc: Doc, k: string, c: Check, v: Value)
    requires c.Gt? || c.Gteq?
    ensures LeafVerdict(LeafRule(k, Required, [IsInt, c]), doc[k := v]) ==
              if !v.Int? then Some(WrongType)
              else if Holds(c, v) then None
              else Some(RangeViolation)
  {
    assert doc[k := v][k] == v;
    FirstFailureOfPair(IsInt, c, v);
  }

  /** The verdict of the identifier rule. */
  lemma IdentifierVerdict(doc: Doc, v: Value)
    ensures LeafVerdict(LeafRule("id", Required, [IsStr, Identifier]), doc["id" := v]) ==
              if !v.Str? then Some(WrongType)
              else if IsIdentifier(v.s) then None
              else Some(FormatViolation)
  {
    assert doc["id" := v]["id"] == v;
    FirstFailureOfPair(IsStr, Identifier, v);
  }

  /** A field whose rule is a single type check: nil fails it only when the
      field is required, any other value when it has the wrong kind, and the
      code is a type error either way. */
  lemma TypedFieldVerdict(doc: Doc, i: nat, k: string, req: Requiredness, c: Check, v: Value)
    requires c in {IsStr, IsInt, IsBool} && k != "max_wait_time"
    requires i < |Fields| && Fields[i].leaf == LeafRule(k, req, [c])
    ensures [Key(k)] in ErrorsOf(doc[k := v]) <==> if v.Nil? then req == Required else !Holds(c, v)
    ensures [Key(k)] in ErrorsOf(doc[k := v]) ==> ErrorsOf(doc[k := v])[[Key(k)]] == WrongType
  {
    FieldVerdict(doc[k := v], i, LeafRule(k, req, [c]));
    TypeCheckVerdict(doc, k, req, c, v);
  }

  /** A required integer field with a lower bound: a non-integer is a type
      error, an integer below the bound a range error. */
  lemma BoundedFieldVerdict(doc: Doc, i: nat, k: string, c: Check, v: Value)
    requires (c.Gt? || c.Gteq?) && k != "max_wait_time"
    requires i < |Fields| && Fields[i].leaf == LeafRule(k, Required, [IsInt, c])
    ensures [Key(k)] in ErrorsOf(doc[k := v]) <==> !(v.Int? && Holds(c, v))
    ensures [Key(k)] in ErrorsOf(doc[k := v]) ==>
              ErrorsOf(doc[k := v])[[Key(k)]] == if v.Int? then RangeViolation else WrongType
  {
    FieldVerdict(doc[k := v], i, LeafRule(k, Required, [IsInt, c]));
    BoundedIntegerVerdict(doc, k, c, v);
  }

  /** The index of each required integer setting in the field table. */
  function IntegerFieldIndex(k: string): (i: nat)
    requires k in {"session_timeout", "offset_commit_interval", "offset_commit_threshold", "heartbeat_interval"}
    ensures i < |Fields| && Fields[i] == FieldRule(LeafRule(k, Required, [IsInt]), NoElements)
  {
    match k
    case "session_timeout" => 2
    case "offset_commit_interval" => 3
    case "offset_commit_threshold" => 4
    case "heartbeat_interval" => 6
  }

  /** session_timeout, offset_commit_interval, offset_commit_threshold and
      heartbeat_interval must each be present integers. */
  lemma RequiredIntegerVerdict(doc: Doc, k: string, v: Value)
    requires k in {"session_timeout", "offset_commit_interval", "offset_commit_threshold", "heartbeat_interval"}
    ensures [Key(k)] in ErrorsOf(doc[k := v]) <==> !v.Int?
    ensures [Key(k)] in ErrorsOf(doc[k := v]) ==> ErrorsOf(doc[k := v])[[Key(k)]] == WrongType
  {
    TypedFieldVerdict(doc, IntegerFieldIndex(k), k, Required, IsInt, v);
  }

  /** offset_retention_time may be absent or nil; otherwise it must be an
      integer. */
  lemma OffsetRetentionVerdict(doc: Doc, v: Value)
    ensures [Key("offset_retention_time")] in ErrorsOf(doc["offset_retention_time" := v]) <==> !(v.Nil? || v.Int?)
    ensures [Key("offset_retention_time")] in ErrorsOf(doc["offset_retention_time" := v]) ==>
              ErrorsOf(doc["offset_retention_time" := v])[[Key("offset_retention_time")]] == WrongType
  {
    OffsetRetentionEntry();
    TypedFieldVerdict(doc, 5, "offset_retention_time", OptionalNilable, IsInt, v);
  }

  /** offset_retention_time may also be left out altogether. */
  lemma OffsetRetentionOptional(doc: Doc)
    ensures [Key("offset_retention_time")] !in ErrorsOf(doc - {"offset_retention_time"})
  {
    OffsetRetentionEntry();
    FieldVerdict(doc - {"offset_retention_time"}, 5, LeafRule("offset_retention_time", OptionalNilable, [IsInt]));
  }

  /** connect_timeout and socket_timeout must be integers greater than 0. */
  lemma PositiveTimeoutVerdict(doc: Doc, k: string, v: Value)
    requires k in {"connect_timeout", "socket_timeout"}
    ensures [Key(k)] in ErrorsOf(doc[k := v]) <==> !(v.Int? && v.i > 0)
    ensures [Key(k)] in ErrorsOf(doc[k := v]) ==>
              ErrorsOf(doc[k := v])[[Key(k)]] == if v.Int? then RangeViolation else WrongType
  {
    BoundedFieldVerdict(doc, TimeoutFieldIndex(k), k, Gt(0), v);
  }

  /** The index of each timeout setting in the field table. */
  function TimeoutFieldIndex(k: string): (i: nat)
    requires k in {"connect_timeout", "socket_timeout"}
    ensures i < |Fields| && Fields[i] == FieldRule(LeafRule(k, Required, [IsInt, Gt(0)]), NoElements)
  {
    if k == "connect_timeout" then ConnectTimeoutEntry(); 7
    else SocketTimeoutEntry(); 8
  }

  /** min_bytes must be an integer of at least 1; a Float is a type error
      whatever its value. */
  lemma MinBytesVerdict(doc: Doc, v: Value)
    ensures [Key("min_bytes")] in ErrorsOf(doc["min_bytes" := v]) <==> !(v.Int? && v.i >= 1)
    ensures [Key("min_bytes")] in ErrorsOf(doc["min_bytes" := v]) ==>
              ErrorsOf(doc["min_bytes" := v])[[Key("min_bytes")]] == if v.Int? then RangeViolation else WrongType
  {
    MinBytesEntry();
    BoundedFieldVerdict(doc, 10, "min_bytes", Gteq(1), v);
  }

  /** batch_fetching must be a boolean. */
  lemma BatchFetchingVerdict(doc: Doc, v: Value)
    ensures [Key("batch_fetching")] in ErrorsOf(doc["batch_fetching" := v]) <==> !v.Bool?
    ensures [Key("batch_fetching")] in ErrorsOf(doc["batch_fetching" := v]) ==>
              ErrorsOf(doc["batch_fetching" := v])[[Key("batch_fetching")]] == WrongType
  {
    BatchFetchingEntry();
    TypedFieldVerdict(doc, 11, "batch_fetching", Required, IsBool, v);
  }

  /** Each credential setting may be absent or nil; otherwise it must be a
      string. */
  lemma CredentialVerdict(doc: Doc, c: nat, v: Value)
    requires c < |CredentialKeys|
    ensures var k := CredentialKeys[c];
            && ([Key(k)] in ErrorsOf(doc[k := v]) <==> !(v.Nil? || v.Str?))
            && ([Key(k)] in ErrorsOf(doc[k := v]) ==> ErrorsOf(doc[k := v])[[Key(k)]] == WrongType)
  {
    var k := CredentialKeys[c];
    CredentialEntry(c);
    TypedFieldVerdict(doc, 13 + c, k, OptionalNilable, IsStr, v);
  }

  /** Setting a credential to nil or to a string keeps a valid document
      valid. */
  lemma CredentialNilOrStringAccepted(doc: Doc, c: nat, s: string)
    requires c < |CredentialKeys| && Validate(ConsumerGroupSchema, doc).Success()
    ensures Validate(ConsumerGroupSchema, doc[CredentialKeys[c] := Nil]).Success()
    ensures Validate(ConsumerGroupSchema, doc[CredentialKeys[c] := Str(s)]).Success()
  {
    var k := CredentialKeys[c];
    FieldKeysDistinct();
    CredentialEntry(c);
    TypeCheckVerdict(doc, k, OptionalNilable, IsStr, Str(s));
    AcceptedValueKeepsSuccess(ConsumerGroupSchema, doc, 13 + c, Nil);
    AcceptedValueKeepsSuccess(ConsumerGroupSchema, doc, 13 + c, Str(s));
  }

  /** max_wait_time must be an integer of at least 0; otherwise its own
      error is reported, whatever the cross-field rule says. */
  lemma MaxWaitTimeReported(doc: Doc, v: Value)
    requires !(v.Int? && v.i >= 0)
    ensures [Key("max_wait_time")] in ErrorsOf(doc["max_wait_time" := v])
    ensures ErrorsOf(doc["max_wait_time" := v])[[Key("max_wait_time")]] == if v.Int? then RangeViolation else WrongType
  {
    var d := doc["max_wait_time" := v];
    FieldKeysDistinct();
    MaxWaitTimeEntry();
    BoundedIntegerVerdict(doc, "max_wait_time", Gteq(0), v);
    FieldErrorsReported(ConsumerGroupSchema, d, 9);
    var own := EvalField(Fields[9], d);
    assert [Key("max_wait_time")] in own;
    assert own[[Key("max_wait_time")]] == if v.Int? then RangeViolation else WrongType;
  }

  /** With max_wait_time and socket_timeout each valid on their own, an
      error lands on max_wait_time exactly when it exceeds socket_timeout,
      and it is a range violation. */
  lemma WaitWithinSocketVerdict(doc: Doc, w: int, t: int)
    requires w >= 0 && t > 0
    ensures var d := doc["max_wait_time" := Int(w)]["socket_timeout" := Int(t)];
            && ([Key("max_wait_time")] in ErrorsOf(d) <==> w > t)
            && ([Key("max_wait_time")] in ErrorsOf(d) ==> ErrorsOf(d)[[Key("max_wait_time")]] == RangeViolation)
  {
    var d := doc["max_wait_time" := Int(w)]["socket_timeout" := Int(t)];
    FieldKeysDistinct();
    MaxWaitTimeEntry();
    SocketTimeoutEntry();
    assert d == doc["socket_timeout" := Int(t)]["max_wait_time" := Int(w)];
    BoundedIntegerVerdict(doc["socket_timeout" := Int(t)], "max_wait_time", Gteq(0), Int(w));
    BoundedIntegerVerdict(doc["max_wait_time" := Int(w)], "socket_timeout", Gt(0), Int(t));
    assert FieldHolds(Fields[9], d) && FieldHolds(Fields[8], d);
    if w > t {
      CrossErrorReported(ConsumerGroupSchema, d, 0, 9, 8);
    } else {
      DependentPathVerdict(ConsumerGroupSchema, d, 9);
    }
  }

  /** `seed_brokers` must be a non-empty array. */
  lemma SeedBrokersVerdict(doc: Doc, v: Value)
    ensures [Key("seed_brokers")] in ErrorsOf(doc["seed_brokers" := v]) <==> !(v.Arr? && v.items != [])
    ensures [Key("seed_brokers")] in ErrorsOf(doc["seed_brokers" := v]) ==>
              ErrorsOf(doc["seed_brokers" := v])[[Key("seed_brokers")]] == if v.Arr? then EmptyCollection else WrongType
  {
    SeedBrokersEntry();
    FieldVerdict(doc["seed_brokers" := v], 1, LeafRule("seed_brokers", Required, [IsArray, Filled]));
    NonEmptyArrayVerdict(doc, "seed_brokers", v);
  }

  /** The element check of `seed_brokers`: a string that is a broker URI
      passes, another string is a format error, anything else a type
      error. */
  lemma BrokerItemVerdict(v: Value)
    ensures FirstFailure([IsStr, BrokerUri], v) ==
              if v.Str? && Uris.IsBroker(v.s) then None
              else if v.Str? then Some(FormatViolation)
              else Some(WrongType)
  {
  }

  /** An entry of `seed_brokers` that is not a broker URI is reported at its
      index: a format error for a string, a type error otherwise. */
  lemma BadBrokerReported(doc: Doc, items: seq<Value>, k: nat)
    requires k < |items| && !(items[k].Str? && Uris.IsBroker(items[k].s))
    ensures var d := doc["seed_brokers" := Arr(items)];
            var p := [Key("seed_brokers"), Index(k)];
            p in ErrorsOf(d) && ErrorsOf(d)[p] == if items[k].Str? then FormatViolation else WrongType
  {
    var d := doc["seed_brokers" := Arr(items)];
    var p := [Key("seed_brokers"), Index(k)];
    var code := if items[k].Str? then FormatViolation else WrongType;
    FieldKeysDistinct();
    SeedBrokersEntry();
    NonEmptyArrayVerdict(doc, "seed_brokers", Arr(items));
    BrokerItemVerdict(items[k]);
    assert EvalItem(EachValue([IsStr, BrokerUri]), items[k], p) == map[p := code];
    ItemErrorsReported(ConsumerGroupSchema, d, 1, k);
    assert p in map[p := code];
  }

  /** The rendering of a well-formed URI that lacks an allowed scheme or a
      port is not a broker. */
  lemma RenderedNonBroker(u: Uris.Uri, s: string)
    requires Uris.WellFormed(u) && s == Uris.Render(u)
    requires !(u.scheme in Uris.AllowedSchemes && u.port.Some?)
    ensures !Uris.IsBroker(s)
  {
    Uris.BrokerIffSchemeAndPort(u);
  }

  lemma HttpsUriShape(u: Uris.Uri)
    requires u == Uris.Uri("https", "github.com", None, "/karafka:80")
    ensures Uris.WellFormed(u)
  {
  }

  lemma HttpsUriText(u: Uris.Uri)
    requires u == Uris.Uri("https", "github.com", None, "/karafka:80")
    ensures Uris.Render(u) == "https://github.com/karafka:80"
  {
  }

  /** The test suite's https URL is rejected. As parsed here, `:80` belongs
      to its path, so it lacks both an allowed scheme and a port;
      WrongSchemeWithPortRejected isolates the scheme check. */
  lemma WrongSchemeRejected()
    ensures !Uris.IsBroker("https://github.com/karafka:80")
  {
    var u := Uris.Uri("https", "github.com", None, "/karafka:80");
    HttpsUriShape(u);
    HttpsUriText(u);
    RenderedNonBroker(u, "https://github.com/karafka:80");
  }

  lemma HttpPortDigits()
    ensures Uris.Digits(80) == "80"
  {
    assert Uris.Digits(8) == "8";
  }

  lemma HttpsPortUriShape(u: Uris.Uri)
    requires u == Uris.Uri("https", "github.com", Some(80), "/karafka")
    ensures Uris.WellFormed(u)
  {
  }

  lemma HttpsPortUriText(u: Uris.Uri)
    requires u == Uris.Uri("https", "github.com", Some(80), "/karafka")
    ensures Uris.Render(u) == "https://github.com:80/karafka"
  {
    HttpPortDigits();
  }

  /** The scheme check on its own: an https URL with an explicit port is
      still not a broker. */
  lemma WrongSchemeWithPortRejected()
    ensures !Uris.IsBroker("https://github.com:80/karafka")
  {
    var u := Uris.Uri("https", "github.com", Some(80), "/karafka");
    HttpsPortUriShape(u);
    HttpsPortUriText(u);
    RenderedNonBroker(u, "https://github.com:80/karafka");
  }

  lemma PortlessUriShape(u: Uris.Uri)
    requires u == Uris.Uri("kafka", "github.com", None, "/karafka")
    ensures Uris.WellFormed(u)
  {
  }

  lemma PortlessUriText(u: Uris.Uri)
    requires u == Uris.Uri("kafka", "github.com", None, "/karafka")
    ensures Uris.Render(u) == "kafka://github.com/karafka"
  {
  }

  /** A broker without an explicit port is rejected. */
  lemma MissingPortRejected()
    ensures !Uris.IsBroker("kafka://github.com/karafka")
  {
    var u := Uris.Uri("kafka", "github.com", None, "/karafka");
    PortlessUriShape(u);
    PortlessUriText(u);
    RenderedNonBroker(u, "kafka://github.com/karafka");
  }

  /** Text that is no URI at all is rejected. */
  lemma JunkBrokerRejected()
    ensures !Uris.IsBroker("#$%^&*()")
  {
    Uris.NoSchemeIsNotBroker("#$%^&*()");
  }

  /** Every error of one element of `topics` reaches the report unchanged,
      once `topics` is a non-empty array. */
  lemma TopicItemErrorsReported(doc: Doc, items: seq<Value>, k: nat)
    requires k < |items|
    ensures var d := doc["topics" := Arr(items)];
            var item := EvalItem(EachSchema(TopicRules), items[k], [Key("topics"), Index(k)]);
            forall p :: p in item ==> p in ErrorsOf(d) && ErrorsOf(d)[p] == item[p]
  {
    FieldKeysDistinct();
    TopicsEntry();
    NonEmptyArrayVerdict(doc, "topics", Arr(items));
    ItemErrorsReported(ConsumerGroupSchema, doc["topics" := Arr(items)], 12, k);
  }

  /** An element of `topics` that is not a hash is a type error at its
      index. */
  lemma TopicNotHashReported(doc: Doc, items: seq<Value>, k: nat)
    requires k < |items| && !items[k].Hash?
    ensures var d := doc["topics" := Arr(items)];
            var p := [Key("topics"), Index(k)];
            p in ErrorsOf(d) && ErrorsOf(d)[p] == WrongType
  {
    var at := [Key("topics"), Index(k)];
    TopicItemErrorsReported(doc, items, k);
    assert EvalItem(EachSchema(TopicRules), items[k], at) == map[at := WrongType];
    assert at in map[at := WrongType];
  }

  lemma TopicKeysDistinct()
    ensures forall a, b :: 0 <= a < b < |TopicRules| ==> TopicRules[a].key != TopicRules[b].key
  {
  }

  /** Within one topic, a setting that breaks its rule is reported under
      its own key with that rule's code. */
  lemma TopicSettingReported(t: Value, at: Path, r: nat)
    requires t.Hash? && r < |TopicRules| && !LeafHolds(TopicRules[r], t.fields)
    ensures var item := EvalItem(EachSchema(TopicRules), t, at);
            at + [Key(TopicRules[r].key)] in item
            && Some(item[at + [Key(TopicRules[r].key)]]) == LeafVerdict(TopicRules[r], t.fields)
  {
    TopicKeysDistinct();
    LeafErrorReported(TopicRules, t.fields, at, r);
  }

  /** A topic setting that breaks its rule is reported under the topic's
      index and the setting's key, with that rule's code. */
  lemma TopicFieldReported(doc: Doc, items: seq<Value>, k: nat, r: nat)
    requires k < |items| && items[k].Hash? && r < |TopicRules|
    requires !LeafHolds(TopicRules[r], items[k].fields)
    ensures var d := doc["topics" := Arr(items)];
            var p := [Key("topics"), Index(k), Key(TopicRules[r].key)];
            p in ErrorsOf(d) && Some(ErrorsOf(d)[p]) == LeafVerdict(TopicRules[r], items[k].fields)
  {
    var at := [Key("topics"), Index(k)];
    TopicItemErrorsReported(doc, items, k);
    TopicSettingReported(items[k], at, r);
    assert at + [Key(TopicRules[r].key)] == [Key("topics"), Index(k), Key(TopicRules[r].key)];
  }
}
