/** Concrete instances of the encoder: the example inputs of the repository's
    unit tests, stated as lemmas about the model. */
module Scenarios {
  import opened Wrappers
  import opened Decimal
  import opened Escaper
  import opened Events
  import opened Parameters
  import opened MetricsUtils

  lemma CacheBusterDigits()
    ensures LongToString(12345) == "12345"
  {
  }

  lemma CombinedTypeExamples()
    ensures CombinedType("testEventType", Some("testObjectType")) == "testEventType/testObjectType"
    ensures CombinedType("testEventType", None) == "testEventType"
  {
  }

  /** Each of `,`, `=` and `\` gains a backslash; other characters stay. */
  lemma EscapeExample()
    ensures Escape("k,=\\") == "k\\,\\=\\\\"
  {
  }

  /** An event built from the three required fields alone is sent as exactly
      twelve parameters: no hostname, hashes, trial flag or title. */
  lemma MinimalPostBody(name: string, eventType: string, clientId: string, analyticsId: string, draw: Int64)
    ensures NewBuilder().SetName(name).SetType(eventType).SetClientId(clientId).Build().Success?
    ensures var e := NewBuilder().SetName(name).SetType(eventType).SetClientId(clientId).Build().value;
      && |BuildPostBody(e, analyticsId, draw)| == 12
      && !HasField(BuildPostBody(e, analyticsId, draw), PageTitle)
      && Param(EventType, eventType) in BuildPostBody(e, analyticsId, draw)
  {
    BuildDefaults(name, eventType, clientId);
    var e := NewBuilder().SetName(name).SetType(eventType).SetClientId(clientId).Build().value;
    PostBodyCount(e, analyticsId, draw);
    PostBodyPage(e, analyticsId, draw);
    PostBodyEvent(e, analyticsId, draw);
  }

  /** An event with every optional field set to a non-empty value and some metadata
      is sent as all seventeen parameters. */
  lemma FullPostBody(event: Event, analyticsId: string, draw: Int64)
    requires NonEmpty(event.clientHostname) && NonEmpty(event.projectNumberHash)
    requires NonEmpty(event.billingIdHash) && event.isUserTrialEligible.Some?
    requires |event.metadata| > 0
    ensures |BuildPostBody(event, analyticsId, draw)| == 17
  {
    PostBodyCount(event, analyticsId, draw);
  }

  /* Literal concatenations, one append per lemma: the solver compares string
     literals character by character, which stays cheap only in small steps. */
  lemma SpellVirtual() ensures VirtualPagePrefix + "/" == "/virtual/" {}
  lemma SpellType() ensures "/virtual/" + "testEventType" == "/virtual/testEventType" {}
  lemma SpellTypeSlash() ensures "/virtual/testEventType" + "/" == "/virtual/testEventType/" {}
  lemma SpellName()
    ensures "/virtual/testEventType/" + "testEventName" == "/virtual/testEventType/testEventName"
  {}
  lemma SpellObject()
    ensures "/virtual/testEventType/" + "testObjectType" == "/virtual/testEventType/testObjectType"
  {}
  lemma SpellObjectSlash()
    ensures "/virtual/testEventType/testObjectType" + "/" == "/virtual/testEventType/testObjectType/"
  {}
  lemma SpellObjectName()
    ensures "/virtual/testEventType/testObjectType/" + "testEventName"
      == "/virtual/testEventType/testObjectType/testEventName"
  {}

  /** The page name of `testCreateVirtualPageNameNoObjectType`. */
  lemma VirtualPageNameExample()
    ensures VirtualPageName("testEventType", None, "testEventName")
      == "/virtual/testEventType/testEventName"
  {
    SpellVirtual();
    SpellType();
    SpellTypeSlash();
    SpellName();
  }

  /** The page name of `testCreateVirtualPageName`. */
  lemma VirtualPageNameObjectExample()
    ensures VirtualPageName("testEventType", Some("testObjectType"), "testEventName")
      == "/virtual/testEventType/testObjectType/testEventName"
  {
    SpellVirtual();
    SpellType();
    SpellTypeSlash();
    SpellObject();
    SpellObjectSlash();
    SpellObjectName();
  }

  lemma SpellKey() ensures "key1" + "\\," == "key1\\," {}
  lemma SpellKeyEq() ensures "key1\\," + "=" == "key1\\,=" {}
  lemma SpellValue() ensures "value1" + "\\=\\\\" == "value1\\=\\\\" {}
  lemma SpellEntry() ensures "key1\\,=" + "value1\\=\\\\" == "key1\\,=value1\\=\\\\" {}

  lemma EscapeKeyExample()
    ensures Escape("key1,") == "key1\\,"
  {
    EscapeConcat("key1", ",");
    EscapeIdentity("key1");
    assert "key1" + "," == "key1,";
    assert Escape(",") == "\\,";
    SpellKey();
  }

  lemma EscapePairExample()
    ensures Escape("=\\") == "\\=\\\\"
  {
    assert Escape("\\") == "\\\\";
    assert "=\\"[1..] == "\\";
  }

  lemma SplitValue() ensures "value1" + "=\\" == "value1=\\" {}

  lemma EscapeValueExample()
    ensures Escape("value1=\\") == "value1\\=\\\\"
  {
    SplitValue();
    EscapeConcat("value1", "=\\");
    EscapeIdentity("value1");
    EscapePairExample();
    SpellValue();
  }

  /** The `dt` value of `testBuildPostBodyFull`: one entry whose key and value
      both carry characters the escaper rewrites. */
  lemma PostBodyTitleExample()
    ensures VirtualPageTitle([("key1,", "value1=\\")]) == "key1\\,=value1\\=\\\\"
  {
    var e := ("key1,", "value1=\\");
    EscapeKeyExample();
    EscapeValueExample();
    SpellKeyEq();
    SpellEntry();
    assert RenderEntry(e) == "key1\\,=value1\\=\\\\";
    VirtualPageTitleSnoc([], e);
    assert [] + [e] == [e];
  }
}
