/** `Event` and its staged-construction `Event.Builder`. */
module Events {
  import opened Wrappers

  /** Metadata as an association list in insertion order. A well-formed one
      has pairwise distinct keys (`DistinctKeys`). */
  type Metadata = seq<(string, string)>

  predicate DistinctKeys(md: Metadata) {
    forall i, j | 0 <= i < j < |md| :: md[i].0 != md[j].0
  }

  function Keys(md: Metadata): set<string> {
    set i | 0 <= i < |md| :: md[i].0
  }

  lemma KeysCons(e: (string, string), md: Metadata)
    ensures Keys([e] + md) == {e.0} + Keys(md)
  {
    var l := [e] + md;
    forall k | k in Keys(l) ensures k in {e.0} + Keys(md) {
      var i :| 0 <= i < |l| && l[i].0 == k;
      if i > 0 { assert md[i - 1] == l[i]; }
    }
    forall k | k in Keys(md) ensures k in Keys(l) {
      var i :| 0 <= i < |md| && md[i].0 == k;
      assert l[i + 1] == md[i];
    }
    assert l[0] == e;
  }

  /** The value stored under `k`, if any (the first one, should keys repeat). */
  function Lookup(md: Metadata, k: string): (r: Option<string>)
    ensures r.Some? <==> k in Keys(md)
    ensures r.Some? ==> (k, r.value) in md
  {
    if |md| == 0 then None
    else if md[0].0 == k then Some(md[0].1)
    else
      KeysCons(md[0], md[1..]);
      assert [md[0]] + md[1..] == md;
      Lookup(md[1..], k)
  }

  /** `Builder.addMetadata(k, v)` on the metadata alone.

      ASSUMPTION: the Java builder accumulates entries in a Guava
      `ImmutableMap.Builder`, whose `build()` is not part of this model. What is
      modelled is the contract documented on `addMetadata` (Event.java:269-272):
      an existing key is overwritten, last write wins, and here the overwritten
      entry keeps its position; a new key is appended. */
  function Put(md: Metadata, k: string, v: string): (r: Metadata)
    ensures |r| == if k in Keys(md) then |md| else |md| + 1
    ensures forall i | 0 <= i < |md| :: r[i].0 == md[i].0
  {
    if |md| == 0 then [(k, v)]
    else if md[0].0 == k then
      KeysCons(md[0], md[1..]);
      KeysCons((k, v), md[1..]);
      assert [md[0]] + md[1..] == md;
      [(k, v)] + md[1..]
    else
      var rest := Put(md[1..], k, v);
      KeysCons(md[0], md[1..]);
      KeysCons(md[0], rest);
      assert [md[0]] + md[1..] == md;
      [md[0]] + rest
  }

  /** After `Put(md, k, v)` the key `k` maps to `v`, every other key keeps its
      value, and the key set grows by `k` alone. */
  lemma {:induction false} PutLookup(md: Metadata, k: string, v: string)
    ensures Lookup(Put(md, k, v), k) == Some(v)
    ensures forall k' | k' != k :: Lookup(Put(md, k, v), k') == Lookup(md, k')
    ensures Keys(Put(md, k, v)) == Keys(md) + {k}
    decreases |md|
  {
    var r := Put(md, k, v);
    if |md| == 0 {
      assert r == [(k, v)];
      assert Keys(r) == {k} + Keys([]) by { KeysCons((k, v), []); }
    } else {
      assert md == [md[0]] + md[1..];
      KeysCons(md[0], md[1..]);
      if md[0].0 == k {
        assert r == [(k, v)] + md[1..];
        KeysCons((k, v), md[1..]);
        assert r[1..] == md[1..];
      } else {
        PutLookup(md[1..], k, v);
        var rest := Put(md[1..], k, v);
        assert r == [md[0]] + rest;
        assert r[1..] == rest;
        KeysCons(md[0], rest);
      }
    }
  }

  /** A list with one more entry in front has distinct keys iff the entry's key is new. */
  lemma DistinctKeysCons(e: (string, string), md: Metadata)
    ensures DistinctKeys([e] + md) <==> e.0 !in Keys(md) && DistinctKeys(md)
  {
    var l := [e] + md;
    if DistinctKeys(l) {
      forall i, j | 0 <= i < j < |md| ensures md[i].0 != md[j].0 {
        assert md[i] == l[i + 1] && md[j] == l[j + 1];
      }
      forall i | 0 <= i < |md| ensures md[i].0 != e.0 {
        assert l[0] == e && l[i + 1] == md[i];
      }
    }
    if e.0 !in Keys(md) && DistinctKeys(md) {
      forall i, j | 0 <= i < j < |l| ensures l[i].0 != l[j].0 {
        assert l[j] == md[j - 1];
        if i > 0 {
          assert l[i] == md[i - 1];
        } else {
          assert md[j - 1].0 in Keys(md);
        }
      }
    }
  }

  /** `Put` never introduces a duplicate key. */
  lemma {:induction false} PutDistinctKeys(md: Metadata, k: string, v: string)
    requires DistinctKeys(md)
    ensures DistinctKeys(Put(md, k, v))
    decreases |md|
  {
    if |md| > 0 {
      assert md == [md[0]] + md[1..];
      DistinctKeysCons(md[0], md[1..]);
      if md[0].0 == k {
        DistinctKeysCons((k, v), md[1..]);
      } else {
        PutDistinctKeys(md[1..], k, v);
        PutLookup(md[1..], k, v);
        DistinctKeysCons(md[0], Put(md[1..], k, v));
      }
    }
  }

  /** A second `Put` under the same key replaces the first: only the last value
      written survives, so writing the same pair twice is writing it once. */
  lemma {:induction false} PutPut(md: Metadata, k: string, v: string, w: string)
    ensures Put(Put(md, k, v), k, w) == Put(md, k, w)
    decreases |md|
  {
    if |md| > 0 && md[0].0 != k {
      PutPut(md[1..], k, v, w);
      var once := Put(md, k, v);
      assert once == [md[0]] + Put(md[1..], k, v);
      assert once[1..] == Put(md[1..], k, v);
    } else if |md| > 0 {
      var once := Put(md, k, v);
      assert once[1..] == md[1..];
    }
  }

  /** An immutable event record, as built by `Builder.build()`. The Java field
      `type` is called `eventType` here because `type` is a Dafny keyword. */
  datatype Event = Event(
    name: string,
    eventType: string,
    clientId: string,
    isUserSignedIn: bool,
    isUserInternal: bool,
    isUserTrialEligible: Option<bool>,
    objectType: Option<string>,
    projectNumberHash: Option<string>,
    billingIdHash: Option<string>,
    clientHostname: Option<string>,
    metadata: Metadata)

  /** Why `build()` refused: the required field left unset, in the order it checks them. */
  datatype BuildError = MissingName | MissingType | MissingClientId

  /** The fields of a builder, used to state which one an operation changes. */
  datatype Slot =
    | NameSlot | TypeSlot | ClientIdSlot | SignedInSlot | InternalSlot
    | TrialEligibleSlot | ObjectTypeSlot | ProjectNumberHashSlot
    | BillingIdHashSlot | ClientHostnameSlot | MetadataSlot

  /** The state of an `Event.Builder`. Required fields are `None` until set. */
  datatype Builder = Builder(
    name: Option<string>,
    eventType: Option<string>,
    clientId: Option<string>,
    isUserSignedIn: bool,
    isUserInternal: bool,
    isUserTrialEligible: Option<bool>,
    objectType: Option<string>,
    projectNumberHash: Option<string>,
    billingIdHash: Option<string>,
    clientHostname: Option<string>,
    metadata: Metadata)
  {
    /** `this` and `b` agree on every field except possibly `s`. */
    predicate SameExcept(b: Builder, s: Slot) {
      && (s == NameSlot || b.name == name)
      && (s == TypeSlot || b.eventType == eventType)
      && (s == ClientIdSlot || b.clientId == clientId)
      && (s == SignedInSlot || b.isUserSignedIn == isUserSignedIn)
      && (s == InternalSlot || b.isUserInternal == isUserInternal)
      && (s == TrialEligibleSlot || b.isUserTrialEligible == isUserTrialEligible)
      && (s == ObjectTypeSlot || b.objectType == objectType)
      && (s == ProjectNumberHashSlot || b.projectNumberHash == projectNumberHash)
      && (s == BillingIdHashSlot || b.billingIdHash == billingIdHash)
      && (s == ClientHostnameSlot || b.clientHostname == clientHostname)
      && (s == MetadataSlot || b.metadata == metadata)
    }

    function SetName(n: string): (b: Builder)
      ensures b.name == Some(n) && SameExcept(b, NameSlot)
    {
      this.(name := Some(n))
    }

    function SetType(t: string): (b: Builder)
      ensures b.eventType == Some(t) && SameExcept(b, TypeSlot)
    {
      this.(eventType := Some(t))
    }

    function SetClientId(c: string): (b: Builder)
      ensures b.clientId == Some(c) && SameExcept(b, ClientIdSlot)
    {
      this.(clientId := Some(c))
    }

    function SetIsUserSignedIn(v: bool): (b: Builder)
      ensures b.isUserSignedIn == v && SameExcept(b, SignedInSlot)
    {
      this.(isUserSignedIn := v)
    }

    function SetIsUserInternal(v: bool): (b: Builder)
      ensures b.isUserInternal == v && SameExcept(b, InternalSlot)
    {
      this.(isUserInternal := v)
    }

    function SetIsUserTrialEligible(v: bool): (b: Builder)
      ensures b.isUserTrialEligible == Some(v) && SameExcept(b, TrialEligibleSlot)
    {
      this.(isUserTrialEligible := Some(v))
    }

    function ClearIsUserTrialEligible(): (b: Builder)
      ensures b.isUserTrialEligible == None && SameExcept(b, TrialEligibleSlot)
    {
      this.(isUserTrialEligible := None)
    }

    function SetClientHostname(h: string): (b: Builder)
      ensures b.clientHostname == Some(h) && SameExcept(b, ClientHostnameSlot)
    {
      this.(clientHostname := Some(h))
    }

    function ClearClientHostname(): (b: Builder)
      ensures b.clientHostname == None && SameExcept(b, ClientHostnameSlot)
    {
      this.(clientHostname := None)
    }

    function SetObjectType(o: string): (b: Builder)
      ensures b.objectType == Some(o) && SameExcept(b, ObjectTypeSlot)
    {
      this.(objectType := Some(o))
    }

    function ClearObjectType(): (b: Builder)
      ensures b.objectType == None && SameExcept(b, ObjectTypeSlot)
    {
      this.(objectType := None)
    }

    function SetProjectNumberHash(h: string): (b: Builder)
      ensures b.projectNumberHash == Some(h) && SameExcept(b, ProjectNumberHashSlot)
    {
      this.(projectNumberHash := Some(h))
    }

    function ClearProjectNumberHash(): (b: Builder)
      ensures b.projectNumberHash == None && SameExcept(b, ProjectNumberHashSlot)
    {
      this.(projectNumberHash := None)
    }

    function SetBillingIdHash(h: string): (b: Builder)
      ensures b.billingIdHash == Some(h) && SameExcept(b, BillingIdHashSlot)
    {
      this.(billingIdHash := Some(h))
    }

    function ClearBillingIdHash(): (b: Builder)
      ensures b.billingIdHash == None && SameExcept(b, BillingIdHashSlot)
    {
      this.(billingIdHash := None)
    }

    /** `addMetadata(k, v)`: afterwards `k` maps to `v`, other keys keep their values. */
    function AddMetadata(k: string, v: string): (b: Builder)
      ensures Lookup(b.metadata, k) == Some(v)
      ensures forall k' | k' != k :: Lookup(b.metadata, k') == Lookup(metadata, k')
      ensures DistinctKeys(metadata) ==> DistinctKeys(b.metadata)
      ensures SameExcept(b, MetadataSlot)
    {
      PutLookup(metadata, k, v);
      assert DistinctKeys(metadata) ==> DistinctKeys(Put(metadata, k, v)) by {
        if DistinctKeys(metadata) {
          PutDistinctKeys(metadata, k, v);
        }
      }
      this.(metadata := Put(metadata, k, v))
    }

    /** `build()`: fails on the first unset required field (name, then type,
        then clientId); otherwise a snapshot of every field. */
    function Build(): (r: Result<Event, BuildError>)
      ensures r.Failure? <==> name.None? || eventType.None? || clientId.None?
      ensures r.Failure? ==> r.error == (if name.None? then MissingName
                                         else if eventType.None? then MissingType
                                         else MissingClientId)
      ensures r.Success? ==> Snapshot(this, r.value)
    {
      if name.None? then Failure(MissingName)
      else if eventType.None? then Failure(MissingType)
      else if clientId.None? then Failure(MissingClientId)
      else Success(Event(name.value, eventType.value, clientId.value, isUserSignedIn,
                         isUserInternal, isUserTrialEligible, objectType,
                         projectNumberHash, billingIdHash, clientHostname, metadata))
    }
  }

  /** `e` carries exactly the builder's current field values. */
  predicate Snapshot(b: Builder, e: Event) {
    && b.name == Some(e.name)
    && b.eventType == Some(e.eventType)
    && b.clientId == Some(e.clientId)
    && b.isUserSignedIn == e.isUserSignedIn
    && b.isUserInternal == e.isUserInternal
    && b.isUserTrialEligible == e.isUserTrialEligible
    && b.objectType == e.objectType
    && b.projectNumberHash == e.projectNumberHash
    && b.billingIdHash == e.billingIdHash
    && b.clientHostname == e.clientHostname
    && b.metadata == e.metadata
  }

  /** `Event.builder()`: required fields unset, flags false, optionals absent, no metadata. */
  function NewBuilder(): (b: Builder)
    ensures b.name.None? && b.eventType.None? && b.clientId.None?
    ensures !b.isUserSignedIn && !b.isUserInternal
    ensures b.isUserTrialEligible.None? && b.objectType.None?
    ensures b.projectNumberHash.None? && b.billingIdHash.None? && b.clientHostname.None?
    ensures |b.metadata| == 0
  {
    Builder(None, None, None, false, false, None, None, None, None, None, [])
  }

  /** A clear makes the field absent whatever was set before, and clearing twice is clearing once. */
  lemma ClearAfterSet(b: Builder, o: string, h: string, p: string, bi: string, t: bool)
    ensures b.SetObjectType(o).ClearObjectType() == b.ClearObjectType()
    ensures b.SetClientHostname(h).ClearClientHostname() == b.ClearClientHostname()
    ensures b.SetProjectNumberHash(p).ClearProjectNumberHash() == b.ClearProjectNumberHash()
    ensures b.SetBillingIdHash(bi).ClearBillingIdHash() == b.ClearBillingIdHash()
    ensures b.SetIsUserTrialEligible(t).ClearIsUserTrialEligible() == b.ClearIsUserTrialEligible()
    ensures b.ClearObjectType().ClearObjectType() == b.ClearObjectType()
    ensures b.ClearClientHostname().ClearClientHostname() == b.ClearClientHostname()
    ensures b.ClearProjectNumberHash().ClearProjectNumberHash() == b.ClearProjectNumberHash()
    ensures b.ClearBillingIdHash().ClearBillingIdHash() == b.ClearBillingIdHash()
    ensures b.ClearIsUserTrialEligible().ClearIsUserTrialEligible() == b.ClearIsUserTrialEligible()
  {
  }

  /** Every setter keeps only the last value set: setting twice is setting the
      second value, and setting the same value twice is setting it once. */
  lemma LastSetWins(b: Builder, s1: string, s2: string, f1: bool, f2: bool)
    ensures b.SetName(s1).SetName(s2) == b.SetName(s2)
    ensures b.SetType(s1).SetType(s2) == b.SetType(s2)
    ensures b.SetClientId(s1).SetClientId(s2) == b.SetClientId(s2)
    ensures b.SetIsUserSignedIn(f1).SetIsUserSignedIn(f2) == b.SetIsUserSignedIn(f2)
    ensures b.SetIsUserInternal(f1).SetIsUserInternal(f2) == b.SetIsUserInternal(f2)
    ensures b.SetIsUserTrialEligible(f1).SetIsUserTrialEligible(f2) == b.SetIsUserTrialEligible(f2)
    ensures b.SetClientHostname(s1).SetClientHostname(s2) == b.SetClientHostname(s2)
    ensures b.SetObjectType(s1).SetObjectType(s2) == b.SetObjectType(s2)
    ensures b.SetProjectNumberHash(s1).SetProjectNumberHash(s2) == b.SetProjectNumberHash(s2)
    ensures b.SetBillingIdHash(s1).SetBillingIdHash(s2) == b.SetBillingIdHash(s2)
  {
  }

  /** Adding metadata under a key already written overwrites it in place. */
  lemma AddMetadataTwice(b: Builder, k: string, v: string, w: string)
    ensures b.AddMetadata(k, v).AddMetadata(k, w) == b.AddMetadata(k, w)
    ensures b.AddMetadata(k, v).AddMetadata(k, v) == b.AddMetadata(k, v)
  {
    PutPut(b.metadata, k, v, w);
    PutPut(b.metadata, k, v, v);
  }

  /** One builder call, as a value, so that call sequences can be reasoned about. */
  datatype Call =
    | CallSetName(n: string)
    | CallSetType(t: string)
    | CallSetClientId(c: string)
    | CallSetIsUserSignedIn(signedIn: bool)
    | CallSetIsUserInternal(internal: bool)
    | CallSetIsUserTrialEligible(eligible: bool)
    | CallClearIsUserTrialEligible
    | CallSetClientHostname(hostname: string)
    | CallClearClientHostname
    | CallSetObjectType(objectType: string)
    | CallClearObjectType
    | CallSetProjectNumberHash(projectNumberHash: string)
    | CallClearProjectNumberHash
    | CallSetBillingIdHash(billingIdHash: string)
    | CallClearBillingIdHash
    | CallAddMetadata(key: string, value: string)

  function Apply(b: Builder, c: Call): Builder {
    match c
    case CallSetName(n) => b.SetName(n)
    case CallSetType(t) => b.SetType(t)
    case CallSetClientId(id) => b.SetClientId(id)
    case CallSetIsUserSignedIn(v) => b.SetIsUserSignedIn(v)
    case CallSetIsUserInternal(v) => b.SetIsUserInternal(v)
    case CallSetIsUserTrialEligible(v) => b.SetIsUserTrialEligible(v)
    case CallClearIsUserTrialEligible => b.ClearIsUserTrialEligible()
    case CallSetClientHostname(h) => b.SetClientHostname(h)
    case CallClearClientHostname => b.ClearClientHostname()
    case CallSetObjectType(o) => b.SetObjectType(o)
    case CallClearObjectType => b.ClearObjectType()
    case CallSetProjectNumberHash(h) => b.SetProjectNumberHash(h)
    case CallClearProjectNumberHash => b.ClearProjectNumberHash()
    case CallSetBillingIdHash(h) => b.SetBillingIdHash(h)
    case CallClearBillingIdHash => b.ClearBillingIdHash()
    case CallAddMetadata(k, v) => b.AddMetadata(k, v)
  }

  /** The builder reached by `Event.builder()` followed by `calls`, in order. */
  function Run(calls: seq<Call>): Builder {
    if |calls| == 0 then NewBuilder()
    else Apply(Run(calls[..|calls| - 1]), calls[|calls| - 1])
  }

  /** No call introduces a duplicate metadata key. */
  lemma ApplyDistinctKeys(b: Builder, c: Call)
    requires DistinctKeys(b.metadata)
    ensures DistinctKeys(Apply(b, c).metadata)
  {
    if !c.CallAddMetadata? {
      assert Apply(b, c).metadata == b.metadata;
    }
  }

  /** Every reachable builder holds metadata with distinct keys. */
  lemma {:induction false} RunDistinctKeys(calls: seq<Call>)
    ensures DistinctKeys(Run(calls).metadata)
    decreases |calls|
  {
    if |calls| > 0 {
      var init := calls[..|calls| - 1];
      RunDistinctKeys(init);
      ApplyDistinctKeys(Run(init), calls[|calls| - 1]);
    }
  }

  /** Only the matching setter touches a required field, and no call unsets one. */
  lemma ApplyRequired(b: Builder, c: Call)
    ensures Apply(b, c).name == if c.CallSetName? then Some(c.n) else b.name
    ensures Apply(b, c).eventType == if c.CallSetType? then Some(c.t) else b.eventType
    ensures Apply(b, c).clientId == if c.CallSetClientId? then Some(c.c) else b.clientId
  {
  }

  /** A property holds somewhere in a non-empty sequence iff it holds at its end or before. */
  lemma ExistsSnoc<T>(s: seq<T>, init: seq<T>, p: T -> bool)
    requires |s| > 0 && init == s[..|s| - 1]
    ensures (exists i | 0 <= i < |s| :: p(s[i]))
      <==> p(s[|s| - 1]) || exists i | 0 <= i < |init| :: p(init[i])
  {
    if i :| 0 <= i < |s| && p(s[i]) {
      if i < |s| - 1 {
        assert init[i] == s[i];
      }
    }
    if i :| 0 <= i < |init| && p(init[i]) {
      assert s[i] == init[i];
    }
  }

  /** One more call changes a required field only when it is that field's setter. */
  lemma RunStep(calls: seq<Call>)
    requires |calls| > 0
    ensures var init, last := calls[..|calls| - 1], calls[|calls| - 1];
      && Run(calls).name == (if last.CallSetName? then Some(last.n) else Run(init).name)
      && Run(calls).eventType == (if last.CallSetType? then Some(last.t) else Run(init).eventType)
      && Run(calls).clientId == (if last.CallSetClientId? then Some(last.c) else Run(init).clientId)
  {
    ApplyRequired(Run(calls[..|calls| - 1]), calls[|calls| - 1]);
  }

  /** After a sequence of calls the name is set exactly when `setName` was among them. */
  lemma {:induction false} RunName(calls: seq<Call>)
    ensures Run(calls).name.Some? <==> exists i | 0 <= i < |calls| :: calls[i].CallSetName?
    decreases |calls|
  {
    if |calls| > 0 {
      var init, last := calls[..|calls| - 1], calls[|calls| - 1];
      RunName(init);
      RunStep(calls);
      ExistsSnoc(calls, init, (c: Call) => c.CallSetName?);
    }
  }

  /** After a sequence of calls the type is set exactly when `setType` was among them. */
  lemma {:induction false} RunType(calls: seq<Call>)
    ensures Run(calls).eventType.Some? <==> exists i | 0 <= i < |calls| :: calls[i].CallSetType?
    decreases |calls|
  {
    if |calls| > 0 {
      var init, last := calls[..|calls| - 1], calls[|calls| - 1];
      RunType(init);
      RunStep(calls);
      ExistsSnoc(calls, init, (c: Call) => c.CallSetType?);
    }
  }

  /** After a sequence of calls the client id is set exactly when `setClientId` was among them. */
  lemma {:induction false} RunClientId(calls: seq<Call>)
    ensures Run(calls).clientId.Some? <==> exists i | 0 <= i < |calls| :: calls[i].CallSetClientId?
    decreases |calls|
  {
    if |calls| > 0 {
      var init, last := calls[..|calls| - 1], calls[|calls| - 1];
      RunClientId(init);
      RunStep(calls);
      ExistsSnoc(calls, init, (c: Call) => c.CallSetClientId?);
    }
  }

  /** `build()` after a sequence of calls succeeds exactly when name, type and
      clientId were each set at least once, and its metadata then has distinct keys. */
  lemma BuildAfterCalls(calls: seq<Call>)
    ensures Run(calls).Build().Success? <==>
      && (exists i | 0 <= i < |calls| :: calls[i].CallSetName?)
      && (exists i | 0 <= i < |calls| :: calls[i].CallSetType?)
      && (exists i | 0 <= i < |calls| :: calls[i].CallSetClientId?)
    ensures Run(calls).Build().Success? ==> DistinctKeys(Run(calls).Build().value.metadata)
  {
    RunName(calls);
    RunType(calls);
    RunClientId(calls);
    RunDistinctKeys(calls);
  }

  /** Setting only the required fields builds an event with every default. */
  lemma BuildDefaults(n: string, t: string, c: string)
    ensures NewBuilder().SetName(n).SetType(t).SetClientId(c).Build()
      == Success(Event(n, t, c, false, false, None, None, None, None, None, []))
    ensures NewBuilder().Build() == Failure(MissingName)
  {
  }
}
