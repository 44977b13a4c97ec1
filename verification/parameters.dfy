/** The Measurement Protocol v1 parameter list that MetricsUtils.buildParameters assembles. */
module Parameters {
  import opened Wrappers
  import opened Decimal

  /** Every parameter the encoder can emit; `Code` gives its wire name. */
  datatype Field =
    | Protocol           // v
    | PropertyId         // tid
    | HitType            // t
    | NonInteractive     // ni
    | CacheBuster        // z
    | EventType          // cd19
    | EventName          // cd20
    | Hostname           // dh
    | ClientId           // cid
    | ProjectNumberHash  // cd31
    | BillingIdHash      // cd18
    | UserSignedIn       // cd17
    | UserInternal       // cd16
    | UserTrialEligible  // cd22
    | IsVirtual          // cd21
    | Page               // dp
    | PageTitle          // dt

  function Code(f: Field): string {
    match f
    case Protocol => "v"
    case PropertyId => "tid"
    case HitType => "t"
    case NonInteractive => "ni"
    case CacheBuster => "z"
    case EventType => "cd19"
    case EventName => "cd20"
    case Hostname => "dh"
    case ClientId => "cid"
    case ProjectNumberHash => "cd31"
    case BillingIdHash => "cd18"
    case UserSignedIn => "cd17"
    case UserInternal => "cd16"
    case UserTrialEligible => "cd22"
    case IsVirtual => "cd21"
    case Page => "dp"
    case PageTitle => "dt"
  }

  /** Distinct parameters have distinct wire names. */
  lemma CodeInjective(f: Field, g: Field)
    ensures Code(f) == Code(g) ==> f == g
  {
  }

  datatype Param = Param(field: Field, value: string)

  /** The value of `VALUE_TRUE` / `VALUE_FALSE`. */
  function ToValue(b: bool): (r: string)
    ensures r == "1" <==> b
    ensures r == "0" <==> !b
  {
    if b then "1" else "0"
  }

  /** The wire form of a parameter list: (name, value) pairs, in order. */
  function Wire(ps: seq<Param>): (r: seq<(string, string)>)
    ensures |r| == |ps|
    ensures forall i | 0 <= i < |ps| :: r[i] == (Code(ps[i].field), ps[i].value)
  {
    if |ps| == 0 then [] else [(Code(ps[0].field), ps[0].value)] + Wire(ps[1..])
  }

  /** The position of each field in the order buildParameters adds them. */
  function Rank(f: Field): (n: nat)
    ensures n < 17
  {
    match f
    case Protocol => 0
    case PropertyId => 1
    case HitType => 2
    case NonInteractive => 3
    case CacheBuster => 4
    case EventType => 5
    case EventName => 6
    case Hostname => 7
    case ClientId => 8
    case ProjectNumberHash => 9
    case BillingIdHash => 10
    case UserSignedIn => 11
    case UserInternal => 12
    case UserTrialEligible => 13
    case IsVirtual => 14
    case Page => 15
    case PageTitle => 16
  }

  /** The fields in the order buildParameters adds them. */
  const WireOrder: seq<Field> := [
    Protocol, PropertyId, HitType, NonInteractive, CacheBuster, EventType, EventName,
    Hostname, ClientId, ProjectNumberHash, BillingIdHash, UserSignedIn, UserInternal,
    UserTrialEligible, IsVirtual, Page, PageTitle ]

  /** `WireOrder` lists every field, in strictly increasing rank. */
  lemma WireOrderComplete()
    ensures forall i, j | 0 <= i < j < |WireOrder| :: Rank(WireOrder[i]) < Rank(WireOrder[j])
    ensures forall f :: f in WireOrder
  {
    assert forall i | 0 <= i < |WireOrder| :: Rank(WireOrder[i]) == i;
    forall f ensures f in WireOrder {
      assert WireOrder[Rank(f)] == f;
    }
  }

  predicate HasField(ps: seq<Param>, f: Field) {
    exists p | p in ps :: p.field == f
  }

  predicate DistinctFields(ps: seq<Param>) {
    forall i, j | 0 <= i < j < |ps| :: ps[i].field != ps[j].field
  }

  /** Parameters appear in the fixed order of the list builder. */
  predicate InWireOrder(ps: seq<Param>) {
    forall i, j | 0 <= i < j < |ps| :: Rank(ps[i].field) < Rank(ps[j].field)
  }

  lemma WireOrderDistinct(ps: seq<Param>)
    requires InWireOrder(ps)
    ensures DistinctFields(ps)
  {
  }

  predicate NonEmpty(o: Option<string>) {
    o.Some? && o.value != ""
  }

  /** The arguments of buildParameters, gathered in one record. `draw` is the
      one value the method takes from `random.nextLong()`. */
  datatype ParameterArgs = ParameterArgs(
    analyticsId: string,
    clientId: string,
    virtualPageName: string,
    virtualPageTitle: string,
    eventType: string,
    eventName: string,
    isUserSignedIn: bool,
    isUserInternal: bool,
    isUserTrialEligible: Option<bool>,
    projectNumberHash: Option<string>,
    billingIdHash: Option<string>,
    clientHostname: Option<string>,
    draw: Int64)

  /** What the `listBuilder.add` for field `f` adds, or `None` when its guard skips it. */
  function Added(a: ParameterArgs, f: Field): Option<string> {
    match f
    case Protocol => Some("1")
    case PropertyId => Some(a.analyticsId)
    case HitType => Some("pageview")
    case NonInteractive => Some(ToValue(false))
    case CacheBuster => Some(LongToString(a.draw))
    case EventType => Some(a.eventType)
    case EventName => Some(a.eventName)
    case Hostname =>
      if a.clientHostname.Some? && a.clientHostname.value != "" then a.clientHostname else None
    case ClientId => Some(a.clientId)
    case ProjectNumberHash =>
      if a.projectNumberHash.Some? && a.projectNumberHash.value != "" then a.projectNumberHash else None
    case BillingIdHash =>
      if a.billingIdHash.Some? && a.billingIdHash.value != "" then a.billingIdHash else None
    case UserSignedIn => Some(ToValue(a.isUserSignedIn))
    case UserInternal => Some(ToValue(a.isUserInternal))
    case UserTrialEligible =>
      (match a.isUserTrialEligible
       case Some(eligible) => Some(ToValue(eligible))
       case None => None)
    case IsVirtual => Some(ToValue(true))
    case Page => Some(a.virtualPageName)
    case PageTitle => if a.virtualPageTitle != "" then Some(a.virtualPageTitle) else None
  }

  /** Performs the adds for `fields`, in order, skipping those whose guard fails. */
  function AddAll(a: ParameterArgs, fields: seq<Field>): (r: seq<Param>)
    ensures |r| <= |fields|
  {
    if |fields| == 0 then [] else Emitted(a, fields[0]) + AddAll(a, fields[1..])
  }

  /** 1 when `b` holds, else 0. */
  function Count(b: bool): nat {
    if b then 1 else 0
  }

  /** The one parameter the add for `f` contributes, or none when its guard skips it. */
  function Emitted(a: ParameterArgs, f: Field): (r: seq<Param>)
    ensures |r| == Count(Added(a, f).Some?)
  {
    match Added(a, f)
    case Some(v) => [Param(f, v)]
    case None => []
  }

  /** A parameter is in the list exactly when its field is among `fields` and its add happened. */
  lemma {:induction false} AddAllMember(a: ParameterArgs, fields: seq<Field>)
    ensures forall p :: p in AddAll(a, fields) <==> p.field in fields && Added(a, p.field) == Some(p.value)
    decreases |fields|
  {
    if |fields| > 0 {
      AddAllMember(a, fields[1..]);
      assert fields == [fields[0]] + fields[1..];
    }
  }

  /** Adding keeps the order of `fields`. */
  lemma {:induction false} AddAllInWireOrder(a: ParameterArgs, fields: seq<Field>)
    requires forall i, j | 0 <= i < j < |fields| :: Rank(fields[i]) < Rank(fields[j])
    ensures InWireOrder(AddAll(a, fields))
    decreases |fields|
  {
    if |fields| > 0 {
      var rest := fields[1..];
      AddAllInWireOrder(a, rest);
      AddAllMember(a, rest);
      forall q | q in AddAll(a, rest) ensures Rank(fields[0]) < Rank(q.field) {
        var k :| 0 <= k < |rest| && rest[k] == q.field;
        assert fields[k + 1] == rest[k];
      }
    }
  }

  /** `buildParameters`: the adds of the Java method, in its order, each under its guard. */
  function BuildParameters(a: ParameterArgs): (r: seq<Param>)
    ensures forall p :: p in r <==> Added(a, p.field) == Some(p.value)
    ensures InWireOrder(r)
    ensures DistinctFields(r)
  {
    WireOrderComplete();
    AddAllMember(a, WireOrder);
    AddAllInWireOrder(a, WireOrder);
    WireOrderDistinct(AddAll(a, WireOrder));
    AddAll(a, WireOrder)
  }

  /** A field whose add happens is in the list with the added value. */
  lemma Present(a: ParameterArgs, f: Field)
    requires Added(a, f).Some?
    ensures Param(f, Added(a, f).value) in BuildParameters(a)
  {
  }

  /** A field is in the list exactly when its add happens, and then with the added value. */
  lemma Sent(a: ParameterArgs, f: Field)
    ensures HasField(BuildParameters(a), f) <==> Added(a, f).Some?
    ensures Added(a, f).Some? ==> Param(f, Added(a, f).value) in BuildParameters(a)
  {
    if Added(a, f).Some? {
      Present(a, f);
    }
  }

  /** The analytics-information parameters every hit carries: protocol version,
      property id, hit type, non-interaction flag and cache buster. */
  lemma AnalyticsParameters(a: ParameterArgs)
    ensures Param(Protocol, "1") in BuildParameters(a)
    ensures Param(PropertyId, a.analyticsId) in BuildParameters(a)
    ensures Param(HitType, "pageview") in BuildParameters(a)
    ensures Param(NonInteractive, "0") in BuildParameters(a)
    ensures Param(CacheBuster, LongToString(a.draw)) in BuildParameters(a)
  {
    Present(a, Protocol);
    Present(a, PropertyId);
    Present(a, HitType);
    Present(a, NonInteractive);
    Present(a, CacheBuster);
  }

  /** The event type and name, which every hit carries. */
  lemma EventParameters(a: ParameterArgs)
    ensures Param(EventType, a.eventType) in BuildParameters(a)
    ensures Param(EventName, a.eventName) in BuildParameters(a)
  {
    Present(a, EventType);
    Present(a, EventName);
  }

  /** The user parameters every hit carries: client id, signed-in and internal flags. */
  lemma UserParameters(a: ParameterArgs)
    ensures Param(ClientId, a.clientId) in BuildParameters(a)
    ensures Param(UserSignedIn, if a.isUserSignedIn then "1" else "0") in BuildParameters(a)
    ensures Param(UserInternal, if a.isUserInternal then "1" else "0") in BuildParameters(a)
  {
    Present(a, ClientId);
    Present(a, UserSignedIn);
    Present(a, UserInternal);
  }

  /** The virtual-page parameters every hit carries: the virtual flag and the page name. */
  lemma PageParameters(a: ParameterArgs)
    ensures Param(IsVirtual, "1") in BuildParameters(a)
    ensures Param(Page, a.virtualPageName) in BuildParameters(a)
  {
    Present(a, IsVirtual);
    Present(a, Page);
  }

  /** The five conditional parameters: each is sent exactly under its condition,
      and then with the expected value. */
  lemma ConditionalParameters(a: ParameterArgs)
    ensures HasField(BuildParameters(a), Hostname) <==> NonEmpty(a.clientHostname)
    ensures NonEmpty(a.clientHostname) ==> Param(Hostname, a.clientHostname.value) in BuildParameters(a)
    ensures HasField(BuildParameters(a), ProjectNumberHash) <==> NonEmpty(a.projectNumberHash)
    ensures NonEmpty(a.projectNumberHash) ==>
      Param(ProjectNumberHash, a.projectNumberHash.value) in BuildParameters(a)
    ensures HasField(BuildParameters(a), BillingIdHash) <==> NonEmpty(a.billingIdHash)
    ensures NonEmpty(a.billingIdHash) ==> Param(BillingIdHash, a.billingIdHash.value) in BuildParameters(a)
    ensures HasField(BuildParameters(a), UserTrialEligible) <==> a.isUserTrialEligible.Some?
    ensures a.isUserTrialEligible.Some? ==>
      Param(UserTrialEligible, if a.isUserTrialEligible.value then "1" else "0") in BuildParameters(a)
    ensures HasField(BuildParameters(a), PageTitle) <==> a.virtualPageTitle != ""
    ensures a.virtualPageTitle != "" ==> Param(PageTitle, a.virtualPageTitle) in BuildParameters(a)
  {
    Sent(a, Hostname);
    Sent(a, ProjectNumberHash);
    Sent(a, BillingIdHash);
    Sent(a, UserTrialEligible);
    Sent(a, PageTitle);
  }

  /** The adds for `[f] + fs`: that of `f`, then those of `fs`. */
  lemma AddAllCons(a: ParameterArgs, f: Field, fs: seq<Field>)
    ensures AddAll(a, [f] + fs) == Emitted(a, f) + AddAll(a, fs)
  {
    assert ([f] + fs)[0] == f;
    assert ([f] + fs)[1..] == fs;
  }

  /** Adding along `x + y` is adding along `x`, then along `y`. */
  lemma {:induction false} AddAllAppend(a: ParameterArgs, x: seq<Field>, y: seq<Field>)
    ensures AddAll(a, x + y) == AddAll(a, x) + AddAll(a, y)
    decreases |x|
  {
    if |x| == 0 {
      assert x + y == y;
    } else {
      AddAllAppend(a, x[1..], y);
      assert x + y == [x[0]] + (x[1..] + y);
      AddAllCons(a, x[0], x[1..] + y);
      assert AddAll(a, x) == Emitted(a, x[0]) + AddAll(a, x[1..]);
    }
  }

  /** The four groups of adds, under the headings the Java method gives them. */
  const AnalyticsFields: seq<Field> := [Protocol, PropertyId, HitType, NonInteractive, CacheBuster]
  const EventFields: seq<Field> := [EventType, EventName, Hostname]
  const UserFields: seq<Field> :=
    [ClientId, ProjectNumberHash, BillingIdHash, UserSignedIn, UserInternal, UserTrialEligible]
  const PageFields: seq<Field> := [IsVirtual, Page, PageTitle]

  lemma WireOrderGroups()
    ensures WireOrder == AnalyticsFields + EventFields + UserFields + PageFields
  {
  }

  lemma CountAnalytics(a: ParameterArgs)
    ensures |AddAll(a, AnalyticsFields)| == 5
  {
    AddAllCons(a, Protocol, AnalyticsFields[1..]);
    AddAllCons(a, PropertyId, AnalyticsFields[2..]);
    AddAllCons(a, HitType, AnalyticsFields[3..]);
    AddAllCons(a, NonInteractive, AnalyticsFields[4..]);
    AddAllCons(a, CacheBuster, []);
  }

  lemma CountEvent(a: ParameterArgs)
    ensures |AddAll(a, EventFields)| == 2 + Count(NonEmpty(a.clientHostname))
  {
    AddAllCons(a, EventType, EventFields[1..]);
    AddAllCons(a, EventName, EventFields[2..]);
    AddAllCons(a, Hostname, []);
  }

  lemma CountUserFlags(a: ParameterArgs)
    ensures |AddAll(a, UserFields[3..])| == 2 + Count(a.isUserTrialEligible.Some?)
  {
    AddAllCons(a, UserSignedIn, UserFields[4..]);
    AddAllCons(a, UserInternal, UserFields[5..]);
    AddAllCons(a, UserTrialEligible, []);
  }

  lemma CountUser(a: ParameterArgs)
    ensures |AddAll(a, UserFields)| == 3 + Count(NonEmpty(a.projectNumberHash))
      + Count(NonEmpty(a.billingIdHash)) + Count(a.isUserTrialEligible.Some?)
  {
    CountUserFlags(a);
    AddAllCons(a, ClientId, UserFields[1..]);
    AddAllCons(a, ProjectNumberHash, UserFields[2..]);
    AddAllCons(a, BillingIdHash, UserFields[3..]);
  }

  lemma CountPage(a: ParameterArgs)
    ensures |AddAll(a, PageFields)| == 2 + Count(a.virtualPageTitle != "")
  {
    AddAllCons(a, IsVirtual, PageFields[1..]);
    AddAllCons(a, Page, PageFields[2..]);
    AddAllCons(a, PageTitle, []);
  }

  /** The list holds the twelve unconditional parameters and one more for each
      conditional one whose guard passes. */
  lemma ParameterCount(a: ParameterArgs)
    ensures |BuildParameters(a)| == 12
      + Count(NonEmpty(a.clientHostname)) + Count(NonEmpty(a.projectNumberHash))
      + Count(NonEmpty(a.billingIdHash)) + Count(a.isUserTrialEligible.Some?)
      + Count(a.virtualPageTitle != "")
  {
    WireOrderGroups();
    AddAllAppend(a, AnalyticsFields + EventFields + UserFields, PageFields);
    AddAllAppend(a, AnalyticsFields + EventFields, UserFields);
    AddAllAppend(a, AnalyticsFields, EventFields);
    CountAnalytics(a);
    CountEvent(a);
    CountUser(a);
    CountPage(a);
  }
}
