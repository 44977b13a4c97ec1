/** The encoder of MetricsUtils: virtual page name, combined type, virtual page
    title and the parameter list of a POST body, before form encoding. */
module MetricsUtils {
  import opened Wrappers
  import opened Decimal
  import opened Joiner
  import opened Escaper
  import opened Events
  import opened Parameters

  const VirtualPagePrefix: string := "/virtual"

  /** `buildCombinedType`: the event type, then `/` and the object type when one is present. */
  function CombinedType(eventType: string, objectType: Option<string>): (r: string)
    ensures objectType.None? ==> r == eventType
    ensures objectType.Some? ==> r == eventType + "/" + objectType.value
  {
    SkipAbsentCons(Some(eventType), [objectType]);
    SkipAbsentCons(objectType, []);
    assert objectType.Some? ==> Join("/", [eventType] + [objectType.value]) == eventType + "/" + objectType.value
      by { if objectType.Some? { JoinCons("/", eventType, [objectType.value]); } }
    Join("/", SkipAbsent([Some(eventType), objectType]))
  }

  /** The segments `buildVirtualPageName` joins, with an absent object type skipped. */
  function PageSegments(eventType: string, objectType: Option<string>, eventName: string): (r: seq<string>)
    ensures r == [VirtualPagePrefix, eventType]
                 + (if objectType.Some? then [objectType.value] else []) + [eventName]
  {
    var last := SkipAbsent([Some(eventName)]);
    SkipAbsentCons(Some(eventName), []);
    assert [Some(eventName)] + [] == [Some(eventName)];
    var mid := SkipAbsent([objectType, Some(eventName)]);
    SkipAbsentCons(objectType, [Some(eventName)]);
    var second := SkipAbsent([Some(eventType), objectType, Some(eventName)]);
    SkipAbsentCons(Some(eventType), [objectType, Some(eventName)]);
    assert [Some(eventType)] + [objectType, Some(eventName)] == [Some(eventType), objectType, Some(eventName)];
    SkipAbsentCons(Some(VirtualPagePrefix), [Some(eventType), objectType, Some(eventName)]);
    assert [Some(VirtualPagePrefix)] + [Some(eventType), objectType, Some(eventName)]
        == [Some(VirtualPagePrefix), Some(eventType), objectType, Some(eventName)];
    SkipAbsent([Some(VirtualPagePrefix), Some(eventType), objectType, Some(eventName)])
  }

  /** `buildVirtualPageName`: `/virtual`, the type, the object type if present, and
      the name, joined by `/`; an absent object type leaves no empty segment. */
  function VirtualPageName(eventType: string, objectType: Option<string>, eventName: string): (r: string)
    ensures objectType.None? ==> r == VirtualPagePrefix + "/" + eventType + "/" + eventName
    ensures objectType.Some? ==>
      r == VirtualPagePrefix + "/" + eventType + "/" + objectType.value + "/" + eventName
  {
    var segments := PageSegments(eventType, objectType, eventName);
    assert segments == [VirtualPagePrefix] + segments[1..];
    assert segments[1..] == [eventType] + segments[2..];
    JoinCons("/", VirtualPagePrefix, segments[1..]);
    JoinCons("/", eventType, segments[2..]);
    if objectType.Some? then
      assert segments[2..] == [objectType.value] + [eventName];
      JoinCons("/", objectType.value, [eventName]);
      Join("/", segments)
    else
      Join("/", segments)
  }

  /** Splitting the page name at `/` gives back its segments: the empty one before
      the leading `/`, `virtual`, the type, the object type only when present, and
      the name, provided none of them contains a `/` itself. */
  lemma VirtualPageNameSegments(eventType: string, objectType: Option<string>, eventName: string)
    requires '/' !in eventType && '/' !in eventName
    requires objectType.Some? ==> '/' !in objectType.value
    ensures Split('/', VirtualPageName(eventType, objectType, eventName)) ==
      ["", "virtual", eventType] + (if objectType.Some? then [objectType.value] else []) + [eventName]
  {
    var name := VirtualPageName(eventType, objectType, eventName);
    var segs := PageSegments(eventType, objectType, eventName);
    var tail := segs[1..];
    var rest := Join("/", tail);
    assert segs == [VirtualPagePrefix] + tail;
    JoinCons("/", VirtualPagePrefix, tail);
    var segments := [""] + (["virtual"] + tail);
    JoinCons("/", "virtual", tail);
    JoinCons("/", "", ["virtual"] + tail);
    AppendAssoc("/", "virtual" + "/", rest);
    assert "" + "/" == "/";
    assert "/" + ("virtual" + "/") == VirtualPagePrefix + "/";
    assert name == Join("/", segments);
    assert tail == [eventType] + (if objectType.Some? then [objectType.value] else []) + [eventName];
    assert segments == ["", "virtual", eventType] + (if objectType.Some? then [objectType.value] else []) + [eventName];
    assert forall i | 0 <= i < |segments| :: '/' !in segments[i];
    SplitJoin('/', segments);
  }

  /** One metadata entry of the title: escaped key, `=`, escaped value. */
  function RenderEntry(e: (string, string)): string {
    Escape(e.0) + "=" + Escape(e.1)
  }

  function RenderEntries(md: Metadata): (r: seq<string>)
    ensures |r| == |md|
    ensures forall i | 0 <= i < |md| :: r[i] == RenderEntry(md[i])
  {
    if |md| == 0 then [] else [RenderEntry(md[0])] + RenderEntries(md[1..])
  }

  /** `buildVirtualPageTitle`: the rendered entries, in iteration order, joined by `,`. */
  function VirtualPageTitle(md: Metadata): (r: string)
    ensures r == "" <==> |md| == 0
  {
    var parts := RenderEntries(md);
    assert |md| > 0 ==> |parts[0]| >= 1;
    Join(",", parts)
  }

  /** Adding one more entry appends `,` and that entry to a non-empty title. */
  lemma VirtualPageTitleSnoc(md: Metadata, e: (string, string))
    ensures VirtualPageTitle(md + [e]) ==
      if |md| == 0 then RenderEntry(e) else VirtualPageTitle(md) + "," + RenderEntry(e)
  {
    assert RenderEntries(md + [e]) == RenderEntries(md) + [RenderEntry(e)];
    if |md| > 0 {
      JoinSnoc(",", RenderEntries(md), RenderEntry(e));
    }
  }

  /** Reads one `key=value` entry of a title, returning it and the unread rest. */
  function ParseEntry(s: string): (r: Option<((string, string), string)>)
    ensures r.Some? ==> |r.value.1| < |s|
  {
    var (key, rest) := ReadSegment(s);
    if |rest| == 0 || rest[0] != '=' then None
    else
      var (value, rest') := ReadSegment(rest[1..]);
      Some(((key, value), rest'))
  }

  /** Reads `,`-separated entries up to the end of `s`. */
  function ParseEntries(s: string): (r: Option<Metadata>)
    decreases |s|
  {
    match ParseEntry(s)
    case None => None
    case Some((e, rest)) =>
      if |rest| == 0 then Some([e])
      else if rest[0] != ',' then None
      else match ParseEntries(rest[1..])
        case None => None
        case Some(es) => Some([e] + es)
  }

  /** Model-side reader of a virtual page title: the inverse of `VirtualPageTitle`. */
  function ParseTitle(s: string): Option<Metadata> {
    if |s| == 0 then Some([]) else ParseEntries(s)
  }

  lemma ParseEntryRender(e: (string, string), rest: string)
    requires |rest| == 0 || rest[0] == ','
    ensures ParseEntry(RenderEntry(e) + rest) == Some((e, rest))
  {
    var key, value := Escape(e.0), Escape(e.1);
    var tail := "=" + (value + rest);
    AppendAssoc(key + "=", value, rest);
    AppendAssoc(key, "=", value + rest);
    assert RenderEntry(e) + rest == key + tail;
    ReadSegmentEscape(e.0, tail);
    assert tail[1..] == value + rest;
    ReadSegmentEscape(e.1, rest);
  }

  /** A last entry ends the list. */
  lemma ParseEntriesLast(s: string, e: (string, string))
    requires ParseEntry(s) == Some((e, ""))
    ensures ParseEntries(s) == Some([e])
  {
  }

  /** An entry followed by `,` and a readable list reads as one more entry. */
  lemma ParseEntriesCons(s: string, e: (string, string), more: string, es: Metadata)
    requires ParseEntry(s) == Some((e, "," + more))
    requires ParseEntries(more) == Some(es)
    ensures ParseEntries(s) == Some([e] + es)
  {
    assert ("," + more)[1..] == more;
  }

  /** A one-entry title reads back as that entry. */
  lemma ParseEntriesRenderOne(md: Metadata)
    requires |md| == 1
    ensures ParseEntries(Join(",", RenderEntries(md))) == Some(md)
  {
    var first := RenderEntry(md[0]);
    ParseEntryRender(md[0], "");
    assert first + "" == first;
    assert Join(",", RenderEntries(md)) == first;
    ParseEntriesLast(first, md[0]);
    assert md == [md[0]];
  }

  /** The title of two or more entries is the first entry, `,`, and the title of the rest. */
  lemma TitleCons(md: Metadata)
    requires |md| > 1
    ensures Join(",", RenderEntries(md)) == RenderEntry(md[0]) + ("," + Join(",", RenderEntries(md[1..])))
  {
    var first, others := RenderEntry(md[0]), RenderEntries(md[1..]);
    assert RenderEntries(md) == [first] + others;
    JoinCons(",", first, others);
    AppendAssoc(first, ",", Join(",", others));
  }

  lemma {:induction false} ParseEntriesRender(md: Metadata)
    requires |md| > 0
    ensures ParseEntries(Join(",", RenderEntries(md))) == Some(md)
    decreases |md|
  {
    if |md| == 1 {
      ParseEntriesRenderOne(md);
    } else {
      var rest := Join(",", RenderEntries(md[1..]));
      TitleCons(md);
      ParseEntryRender(md[0], "," + rest);
      ParseEntriesRender(md[1..]);
      ParseEntriesCons(Join(",", RenderEntries(md)), md[0], rest, md[1..]);
      assert [md[0]] + md[1..] == md;
    }
  }

  /** Escaping makes the title reversible: every key and value, whatever mix of
      `,`, `=` and `\` it contains, is recovered, in order. */
  lemma ParseTitleRoundTrip(md: Metadata)
    ensures ParseTitle(VirtualPageTitle(md)) == Some(md)
  {
    if |md| > 0 {
      ParseEntriesRender(md);
    }
  }

  /** Different metadata lists never share a title. */
  lemma VirtualPageTitleInjective(md1: Metadata, md2: Metadata)
    ensures VirtualPageTitle(md1) == VirtualPageTitle(md2) ==> md1 == md2
  {
    ParseTitleRoundTrip(md1);
    ParseTitleRoundTrip(md2);
  }

  /** The arguments `buildPostBody` passes to `buildParameters` for `event`. */
  function PostBodyArgs(event: Event, analyticsId: string, draw: Int64): ParameterArgs {
    ParameterArgs(
      analyticsId,
      event.clientId,
      VirtualPageName(event.eventType, event.objectType, event.name),
      VirtualPageTitle(event.metadata),
      CombinedType(event.eventType, event.objectType),
      event.name,
      event.isUserSignedIn,
      event.isUserInternal,
      event.isUserTrialEligible,
      event.projectNumberHash,
      event.billingIdHash,
      event.clientHostname,
      draw)
  }

  /** `buildPostBody` up to form encoding: the parameter list of one hit, each
      parameter name at most once and in the order the Java method adds them. */
  function BuildPostBody(event: Event, analyticsId: string, draw: Int64): (r: seq<Param>)
    ensures DistinctFields(r)
    ensures InWireOrder(r)
  {
    BuildParameters(PostBodyArgs(event, analyticsId, draw))
  }

  /** On the wire, as the `NameValuePair` list that is form-encoded, no
      parameter name is sent twice. */
  lemma WireNamesDistinct(event: Event, analyticsId: string, draw: Int64)
    ensures var w := Wire(BuildPostBody(event, analyticsId, draw));
      forall i, j | 0 <= i < j < |w| :: w[i].0 != w[j].0
  {
    var ps := BuildPostBody(event, analyticsId, draw);
    var w := Wire(ps);
    forall i, j | 0 <= i < j < |w| ensures w[i].0 != w[j].0 {
      CodeInjective(ps[i].field, ps[j].field);
    }
  }

  /** The event's type (combined with its object type), name and client id reach
      `cd19`, `cd20` and `cid`. */
  lemma PostBodyEvent(event: Event, analyticsId: string, draw: Int64)
    ensures Param(EventType, CombinedType(event.eventType, event.objectType)) in BuildPostBody(event, analyticsId, draw)
    ensures Param(EventName, event.name) in BuildPostBody(event, analyticsId, draw)
    ensures Param(ClientId, event.clientId) in BuildPostBody(event, analyticsId, draw)
  {
    var a := PostBodyArgs(event, analyticsId, draw);
    Present(a, EventType);
    Present(a, EventName);
    Present(a, ClientId);
  }

  /** The analytics id reaches `tid` and the random draw, in decimal, reaches `z`. */
  lemma PostBodyHit(event: Event, analyticsId: string, draw: Int64)
    ensures Param(PropertyId, analyticsId) in BuildPostBody(event, analyticsId, draw)
    ensures Param(CacheBuster, LongToString(draw)) in BuildPostBody(event, analyticsId, draw)
  {
    var a := PostBodyArgs(event, analyticsId, draw);
    Present(a, PropertyId);
    Present(a, CacheBuster);
  }

  /** The virtual page name always reaches `dp`; the title reaches `dt` exactly
      when the event carries metadata. */
  lemma PostBodyPage(event: Event, analyticsId: string, draw: Int64)
    ensures Param(Page, VirtualPageName(event.eventType, event.objectType, event.name))
      in BuildPostBody(event, analyticsId, draw)
    ensures HasField(BuildPostBody(event, analyticsId, draw), PageTitle) <==> |event.metadata| > 0
    ensures |event.metadata| > 0 ==>
      Param(PageTitle, VirtualPageTitle(event.metadata)) in BuildPostBody(event, analyticsId, draw)
  {
    var a := PostBodyArgs(event, analyticsId, draw);
    Present(a, Page);
    Sent(a, PageTitle);
  }

  /** A hit carries twelve parameters, plus one for each of hostname, project number
      hash and billing id hash that is present and non-empty, one when the trial
      flag is known, and one when the event has metadata. */
  lemma PostBodyCount(event: Event, analyticsId: string, draw: Int64)
    ensures |BuildPostBody(event, analyticsId, draw)| == 12
      + Count(NonEmpty(event.clientHostname)) + Count(NonEmpty(event.projectNumberHash))
      + Count(NonEmpty(event.billingIdHash)) + Count(event.isUserTrialEligible.Some?)
      + Count(|event.metadata| > 0)
  {
    ParameterCount(PostBodyArgs(event, analyticsId, draw));
  }
}
