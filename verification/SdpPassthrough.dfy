/**
 In-place overrides of the media descriptions of an SDP file. The parsed description is
 edited attribute by attribute, so that attributes the code does not know survive.
 */
module SdpPassthrough {
  import opened Types
  import opened Text
  import opened SdpAttributes

  datatype Connection = Connection(
    nettype: Option<string>, addrtype: Option<string>, address: Option<string>, ttl: nat, addrNumber: nat)

  datatype Media = Media(
    isAudio: bool, port: nat, formats: seq<string>, connections: seq<Connection>, attributes: Attributes)

  datatype Overrides = Overrides(
    destinationIp: Option<string>, destinationPort: Option<nat>, interfaceIp: Option<string>,
    sourceIp: Option<string>, sourcePort: Option<nat>, payloadType: Option<nat>,
    audioClockRate: Option<nat>, ptime: Option<string>, maxptime: Option<string>, capsMode: CapsMode)

  datatype Outcome = Applied | MissingConnection | InvalidPayloadType | MissingPt

  /**
   What the rewriting asks of code beside it: the canonical spelling of an rtpmap or
   fmtp value, an rtpmap value with another clock rate, the interface text for a local
   address, and whether an address is multicast.
   */
  datatype Helpers = Helpers(
    canonical: (string, string) -> string,
    withClockRate: (string, nat) -> Option<string>,
    ifaceFor: string -> Option<string>,
    isMulticast: string -> bool)

  const MULTICAST_TTL := 32
  const SOURCE_FILTER := "source-filter"
  const CAPS := "x-nvnmos-caps"
  const IFACE_IP := "x-nvnmos-iface-ip"
  const IFACE := "x-nvnmos-iface"
  const SRC_PORT := "x-nvnmos-src-port"

  /** The keys some override may touch; all others are the file's own. */
  const KNOWN: set<string> :=
    {SOURCE_FILTER, CAPS, IFACE_IP, IFACE, SRC_PORT, "rtpmap", "fmtp", "ptime", "maxptime", "inactive"}

  function OwnKey(): string -> bool {
    k => k !in KNOWN
  }

  lemma KeysDiffer()
    ensures CAPS !in {SOURCE_FILTER, IFACE_IP, IFACE, SRC_PORT, "rtpmap", "fmtp", "ptime", "maxptime", "inactive"}
    ensures SOURCE_FILTER !in {CAPS, IFACE_IP, IFACE, SRC_PORT, "rtpmap", "fmtp", "ptime", "maxptime", "inactive"}
    ensures IFACE_IP !in {SOURCE_FILTER, CAPS, IFACE, SRC_PORT, "rtpmap", "fmtp", "ptime", "maxptime", "inactive"}
    ensures IFACE !in {SOURCE_FILTER, CAPS, IFACE_IP, SRC_PORT, "rtpmap", "fmtp", "ptime", "maxptime", "inactive"}
    ensures SRC_PORT !in {SOURCE_FILTER, CAPS, IFACE_IP, IFACE, "rtpmap", "fmtp", "ptime", "maxptime", "inactive"}
    ensures "ptime" != "maxptime" && "ptime" != "inactive" && "maxptime" != "inactive"
    ensures "rtpmap" !in {"ptime", "maxptime", "inactive"} && "fmtp" !in {"ptime", "maxptime", "inactive"}
  {
    assert CAPS[9] == 'c' && IFACE_IP[9] == 'i' && IFACE[9] == 'i' && SRC_PORT[9] == 's';
    assert |IFACE| != |IFACE_IP|;
    assert SOURCE_FILTER[0] == 's' && CAPS[0] == 'x' && IFACE_IP[0] == 'x' && IFACE[0] == 'x' && SRC_PORT[0] == 'x';
    assert "rtpmap"[0] == 'r' && "fmtp"[0] == 'f' && "ptime"[0] == 'p' && "maxptime"[0] == 'm' && "inactive"[0] == 'i';
  }

  function DecimalText(n: nat): string {
    if n < 10 then [('0' as int + n) as char] else DecimalText(n / 10) + [('0' as int + n % 10) as char]
  }

  predicate Digits(text: string) {
    forall i :: 0 <= i < |text| ==> '0' <= text[i] <= '9'
  }

  function DecimalValue(text: string): nat
    requires Digits(text)
  {
    if text == "" then 0
    else DecimalValue(text[..|text| - 1]) * 10 + (text[|text| - 1] as int - '0' as int)
  }

  /** The digits of a number stand for it, without leading zeros. */
  lemma {:induction false} DecimalTextMeaning(n: nat)
    ensures Digits(DecimalText(n)) && DecimalValue(DecimalText(n)) == n
    ensures DecimalText(n) != "" && (n > 0 ==> DecimalText(n)[0] != '0')
  {
    if n >= 10 {
      DecimalTextMeaning(n / 10);
      var text := DecimalText(n);
      assert text[..|text| - 1] == DecimalText(n / 10);
    }
  }

  // Payload type

  /** What a change of payload type does to one attribute. */
  function Repointed(h: Helpers, attribute: Attribute, oldPt: string, newPt: string): Attribute {
    if attribute.value.None? then attribute
    else
      var value := attribute.value.value;
      if (attribute.key == "rtpmap" || attribute.key == "fmtp") && oldPt + " " <= value then
        Attribute(attribute.key, Some(h.canonical(attribute.key, newPt + " " + value[|oldPt| + 1..])))
      else if attribute.key == CAPS && value == oldPt then Attribute(CAPS, Some(newPt))
      else attribute
  }

  function Repoint(h: Helpers, oldPt: string, newPt: string): Attribute -> Attribute {
    a => Repointed(h, a, oldPt, newPt)
  }

  /**
   Every attribute keeps its index and key. Exactly the values that name the old payload type
   change: an rtpmap or fmtp names the new one before the rest of its text, a marker becomes it.
   */
  lemma RepointedMeaning(h: Helpers, attributes: Attributes, oldPt: string, newPt: string, i: nat)
    requires i < |attributes|
    ensures
      var after := Mapped(attributes, Repoint(h, oldPt, newPt));
      && |after| == |attributes| && after[i].key == attributes[i].key
      && (after[i] != attributes[i] ==>
            && attributes[i].value.Some?
            && ((attributes[i].key in {"rtpmap", "fmtp"} && oldPt + " " <= attributes[i].value.value)
                || attributes[i] == Attribute(CAPS, Some(oldPt))))
      && (attributes[i] == Attribute(CAPS, Some(oldPt)) ==> after[i] == Attribute(CAPS, Some(newPt)))
      && (forall key, rest :: key in {"rtpmap", "fmtp"} && attributes[i] == Attribute(key, Some(oldPt + " " + rest)) ==>
            after[i] == Attribute(key, Some(h.canonical(key, newPt + " " + rest))))
  {
    KeysDiffer();
    forall key, rest | attributes[i] == Attribute(key, Some(oldPt + " " + rest))
      ensures attributes[i].value.value[|oldPt| + 1..] == rest
    {
    }
    MappedAt(attributes, Repoint(h, oldPt, newPt));
  }

  function WithPayload(h: Helpers, m: Media, newPt: string): Media
    requires m.formats != []
  {
    if m.formats[0] == newPt then m
    else m.(formats := m.formats[0 := newPt],
            attributes := Mapped(m.attributes, Repoint(h, m.formats[0], newPt)))
  }

  function Reclocked(h: Helpers, rate: nat): Attribute -> Option<Attribute> {
    (a: Attribute) =>
      if a.key != "rtpmap" || a.value.None? || h.withClockRate(a.value.value, rate).None? then None
      else Some(Attribute("rtpmap", Some(h.canonical("rtpmap", h.withClockRate(a.value.value, rate).value))))
  }

  // Addresses

  predicate White(c: char) {
    var n := c as int;
    || 9 <= n <= 13 || n == 32 || n == 0x85 || n == 0xA0 || n == 0x1680 || 0x2000 <= n <= 0x200A
    || n == 0x2028 || n == 0x2029 || n == 0x202F || n == 0x205F || n == 0x3000
  }

  predicate Slash(c: char) {
    c == '/'
  }

  /** A single word without a time-to-live suffix. */
  predicate Address(s: string) {
    s != "" && Free(s, White) && Free(s, Slash)
  }

  function StripSuffix(address: string): string {
    address[..WordEnd(address, Slash)]
  }

  function ConnectionAddress(connections: seq<Connection>): Option<string> {
    if connections == [] || connections[0].address.None? then None
    else Some(StripSuffix(connections[0].address.value))
  }

  function WithAddress(h: Helpers, c: Connection, address: string): Connection {
    var ttl := if !h.isMulticast(address) then 0 else if c.ttl == 0 then MULTICAST_TTL else c.ttl;
    Connection(Some(if c.nettype.Some? then c.nettype.value else "IN"),
               Some(if c.addrtype.Some? then c.addrtype.value else "IP4"),
               Some(address), ttl, c.addrNumber)
  }

  // Source filter, section 3 of RFC 4570: mode, nettype, addrtype, destination, sources

  function Destination(value: string): Option<string> {
    var words := Words(value, White);
    if |words| >= 5 then Some(words[3]) else None
  }

  function FilterText(mode: string, nettype: string, addrtype: string, dest: string, sources: string): string {
    " " + Join([mode, nettype, addrtype]) + " " + dest + " " + sources
  }

  function WithDestination(value: string, dest: string): Option<string> {
    var words := Words(value, White);
    if |words| >= 5 then Some(FilterText(words[0], words[1], words[2], dest, Join(words[4..]))) else None
  }

  function Redirect(dest: string): Attribute -> Option<Attribute> {
    (a: Attribute) =>
      if a.key != SOURCE_FILTER || a.value.None? || WithDestination(a.value.value, dest).None? then None
      else Some(Attribute(SOURCE_FILTER, WithDestination(a.value.value, dest)))
  }

  function IncludeFilter(dest: string, source: string): string {
    FilterText("incl", "IN", "IP4", dest, source)
  }

  function FilterDestination(connections: seq<Connection>, o: Overrides): string {
    if o.destinationIp.Some? then o.destinationIp.value
    else if ConnectionAddress(connections).Some? then ConnectionAddress(connections).value
    else ""
  }

  // The overrides as functions of the media

  function CapsModed(m: Media, mode: CapsMode): Media {
    match mode
    case Auto => m
    case Constrained => m.(attributes := Kept(m.attributes, IsNot(CAPS)))
    case Unconstrained =>
      if ValueOf(m.attributes, CAPS).Some? then m
      else m.(attributes := Upserted(m.attributes, CAPS, if m.formats != [] then m.formats[0] else "96"))
  }

  /** The value of the first attribute of a key. */
  function ValueOf(attributes: Attributes, key: string): Option<string> {
    var found := Kept(attributes, Is(key));
    if found == [] then None else found[0].value
  }

  function Destined(h: Helpers, m: Media, o: Overrides): Media {
    if o.destinationIp.None? || ConnectionAddress(m.connections) == o.destinationIp || m.connections == [] then m
    else
      var dest := o.destinationIp.value;
      m.(connections := m.connections[0 := WithAddress(h, m.connections[0], dest)],
         attributes := FirstReplaced(m.attributes, Redirect(dest)))
  }

  function Synced(h: Helpers, attributes: Attributes, ip: string): Attributes {
    var stamped := Upserted(attributes, IFACE_IP, ip);
    if h.ifaceFor(ip).Some? then Upserted(stamped, IFACE, h.ifaceFor(ip).value) else Kept(stamped, IsNot(IFACE))
  }

  function Localised(h: Helpers, m: Media, o: Overrides): Media {
    var a := if o.interfaceIp.Some? then Synced(h, m.attributes, o.interfaceIp.value) else m.attributes;
    m.(attributes := if o.sourcePort.Some? then Upserted(a, SRC_PORT, DecimalText(o.sourcePort.value)) else a)
  }

  function Filtered(m: Media, o: Overrides): Media {
    if o.sourceIp.None? then m
    else m.(attributes := Upserted(m.attributes, SOURCE_FILTER, IncludeFilter(FilterDestination(m.connections, o), o.sourceIp.value)))
  }

  function Repaid(h: Helpers, m: Media, o: Overrides): Media {
    if o.payloadType.None? || m.formats == [] then m else WithPayload(h, m, DecimalText(o.payloadType.value))
  }

  function Timed(h: Helpers, m: Media, o: Overrides): Media {
    if !m.isAudio then m
    else
      var a := if o.audioClockRate.Some? then FirstReplaced(m.attributes, Reclocked(h, o.audioClockRate.value)) else m.attributes;
      var b := if o.ptime.Some? then Upserted(a, "ptime", o.ptime.value) else a;
      m.(attributes := if o.maxptime.Some? then Upserted(b, "maxptime", o.maxptime.value) else b)
  }

  predicate TransportSet(o: Overrides) {
    || o.destinationIp.Some? || o.interfaceIp.Some? || o.destinationPort.Some?
    || o.sourceIp.Some? || o.sourcePort.Some?
  }

  function Activated(m: Media, o: Overrides): Media {
    if TransportSet(o) then m.(attributes := Kept(m.attributes, IsNot("inactive"))) else m
  }

  function Ported(m: Media, o: Overrides): Media {
    if o.destinationPort.Some? then m.(port := o.destinationPort.value) else m
  }

  function Addressed(h: Helpers, m: Media, o: Overrides): Media {
    Filtered(Localised(h, Destined(h, Ported(m, o), o), o), o)
  }

  function Formatted(h: Helpers, m: Media, o: Overrides): Media {
    Activated(Timed(h, Repaid(h, m, o), o), o)
  }

  function PrimaryLeg(h: Helpers, m: Media, o: Overrides): Media {
    Formatted(h, Addressed(h, m, o), o)
  }

  function LegOutcome(m: Media, o: Overrides): Outcome {
    if o.destinationIp.Some? && ConnectionAddress(m.connections) != o.destinationIp && m.connections == []
    then MissingConnection
    else if o.payloadType.Some? && !(96 <= o.payloadType.value <= 127) then InvalidPayloadType
    else if o.payloadType.Some? && m.formats == [] then MissingPt
    else Applied
  }

  /** One media description, edited in place. */
  class Section {
    var media: Media
    const h: Helpers

    constructor (h: Helpers, media: Media)
      ensures this.h == h && this.media == media
    {
      this.h := h;
      this.media := media;
    }

    /** Removes by index while walking; the walk only advances past what it keeps. */
    method RemoveByKey(key: string)
      modifies this
      ensures media == old(media).(attributes := Kept(old(media.attributes), IsNot(key)))
    {
      var idx := 0;
      while idx < |media.attributes|
        invariant idx <= |media.attributes|
        invariant forall i :: 0 <= i < idx ==> media.attributes[i].key != key
        invariant Kept(media.attributes, IsNot(key)) == Kept(old(media.attributes), IsNot(key))
        invariant media == old(media).(attributes := media.attributes)
        decreases |media.attributes| - idx
      {
        if media.attributes[idx].key == key {
          var before, after := media.attributes[..idx], media.attributes[idx + 1..];
          SpliceOut(media.attributes, idx, IsNot(key));
          media := media.(attributes := before + after);
        } else {
          idx := idx + 1;
        }
      }
      KeptAll(media.attributes, IsNot(key));
    }

    /** The first position of a key. */
    method FindIndex(key: string) returns (found: Option<nat>)
      ensures found.None? ==> forall i :: 0 <= i < |media.attributes| ==> media.attributes[i].key != key
      ensures found.Some? ==> found.value < |media.attributes| && media.attributes[found.value].key == key
      ensures found.Some? ==> forall i :: 0 <= i < found.value ==> media.attributes[i].key != key
    {
      for idx := 0 to |media.attributes|
        invariant forall i :: 0 <= i < idx ==> media.attributes[i].key != key
      {
        if media.attributes[idx].key == key {
          return Some(idx);
        }
      }
      return None;
    }

    method Upsert(key: string, value: string)
      modifies this
      ensures media == old(media).(attributes := Upserted(old(media.attributes), key, value))
    {
      var found := FindIndex(key);
      if found.Some? {
        UpsertedFound(media.attributes, found.value, key, value);
        media := media.(attributes := media.attributes[found.value := Attribute(key, Some(value))]);
      } else {
        UpsertedNew(media.attributes, key, value);
        media := media.(attributes := media.attributes + [Attribute(key, Some(value))]);
      }
    }

    method ApplyCapsMode(mode: CapsMode)
      modifies this
      ensures media == CapsModed(old(media), mode)
    {
      match mode {
        case Auto =>
        case Constrained =>
          RemoveByKey(CAPS);
        case Unconstrained =>
          if ValueOf(media.attributes, CAPS).None? {
            var pt := if media.formats != [] then media.formats[0] else "96";
            Upsert(CAPS, pt);
          }
      }
    }

    method ReplaceConnectionAddress(address: string) returns (ok: bool)
      modifies this
      ensures ok <==> old(media).connections != []
      ensures media == if !ok then old(media) else
        old(media).(connections := old(media.connections)[0 := WithAddress(h, old(media.connections)[0], address)])
    {
      if media.connections == [] {
        return false;
      }
      media := media.(connections := media.connections[0 := WithAddress(h, media.connections[0], address)]);
      return true;
    }

    method UpdateSourceFilterDestination(dest: string)
      modifies this
      ensures media == old(media).(attributes := FirstReplaced(old(media.attributes), Redirect(dest)))
    {
      for idx := 0 to |media.attributes|
        invariant media == old(media)
        invariant forall j :: 0 <= j < idx ==> Redirect(dest)(media.attributes[j]).None?
      {
        var attribute := media.attributes[idx];
        if attribute.key != SOURCE_FILTER || attribute.value.None? {
          continue;
        }
        var value := WithDestination(attribute.value.value, dest);
        if value.None? {
          continue;
        }
        FirstReplacedAt(media.attributes, idx, Redirect(dest));
        media := media.(attributes := media.attributes[idx := Attribute(SOURCE_FILTER, value)]);
        return;
      }
      FirstReplacedNowhere(media.attributes, Redirect(dest));
    }

    /** Two passes: the rewrites are collected by index, then written. */
    method RepointAttributes(oldPt: string, newPt: string)
      modifies this
      ensures media == old(media).(attributes := Mapped(old(media.attributes), Repoint(h, oldPt, newPt)))
    {
      var edit := Repoint(h, oldPt, newPt);
      var attributes := media.attributes;
      var rewrites: seq<(nat, Attribute)> := [];
      for idx := 0 to |attributes|
        invariant forall r <- rewrites :: r.0 < idx && r.1 == edit(attributes[r.0])
        invariant forall i :: 0 <= i < idx && edit(attributes[i]) != attributes[i] ==>
          (i, edit(attributes[i])) in rewrites
      {
        if edit(attributes[idx]) != attributes[idx] {
          ghost var before := rewrites;
          rewrites := rewrites + [(idx, edit(attributes[idx]))];
          assert rewrites[|before|] == (idx, edit(attributes[idx]));
          assert forall r <- before :: r in rewrites;
        }
      }
      for n := 0 to |rewrites|
        invariant media == old(media).(attributes := media.attributes) && |media.attributes| == |attributes|
        invariant forall i :: 0 <= i < |attributes| ==>
          media.attributes[i] == attributes[i] || media.attributes[i] == edit(attributes[i])
        invariant forall k :: 0 <= k < n ==>
          media.attributes[rewrites[k].0] == edit(attributes[rewrites[k].0])
      {
        media := media.(attributes := media.attributes[rewrites[n].0 := rewrites[n].1]);
      }
      MappedAt(attributes, edit);
      forall i | 0 <= i < |attributes|
        ensures media.attributes[i] == edit(attributes[i])
      {
        if edit(attributes[i]) != attributes[i] {
          var k :| 0 <= k < |rewrites| && rewrites[k] == (i, edit(attributes[i]));
        }
      }
      assert media.attributes == Mapped(attributes, edit);
    }

    method RewritePayloadType(newPt: string) returns (ok: bool)
      modifies this
      ensures ok <==> old(media).formats != []
      ensures media == if ok then WithPayload(h, old(media), newPt) else old(media)
    {
      if media.formats == [] {
        return false;
      }
      var oldPt := media.formats[0];
      if oldPt != newPt {
        media := media.(formats := media.formats[0 := newPt]);
        RepointAttributes(oldPt, newPt);
      }
      return true;
    }

    method RewriteAudioClockRate(rate: nat)
      modifies this
      ensures media == old(media).(attributes := FirstReplaced(old(media.attributes), Reclocked(h, rate)))
    {
      for idx := 0 to |media.attributes|
        invariant media == old(media)
        invariant forall j :: 0 <= j < idx ==> Reclocked(h, rate)(media.attributes[j]).None?
      {
        var attribute := media.attributes[idx];
        if attribute.key != "rtpmap" || attribute.value.None? {
          continue;
        }
        var value := h.withClockRate(attribute.value.value, rate);
        if value.None? {
          continue;
        }
        FirstReplacedAt(media.attributes, idx, Reclocked(h, rate));
        var canonical := Attribute("rtpmap", Some(h.canonical("rtpmap", value.value)));
        media := media.(attributes := media.attributes[idx := canonical]);
        return;
      }
      FirstReplacedNowhere(media.attributes, Reclocked(h, rate));
    }

    method ApplyLocal(o: Overrides)
      modifies this
      ensures media == Localised(h, old(media), o)
    {
      if o.interfaceIp.Some? {
        Upsert(IFACE_IP, o.interfaceIp.value);
        var value := h.ifaceFor(o.interfaceIp.value);
        if value.Some? {
          Upsert(IFACE, value.value);
        } else {
          RemoveByKey(IFACE);
        }
      }
      if o.sourcePort.Some? {
        Upsert(SRC_PORT, DecimalText(o.sourcePort.value));
      }
    }

    method ApplyAudio(o: Overrides)
      modifies this
      ensures media == Timed(h, old(media), o)
    {
      if !media.isAudio {
        return;
      }
      if o.audioClockRate.Some? {
        RewriteAudioClockRate(o.audioClockRate.value);
      }
      if o.ptime.Some? {
        Upsert("ptime", o.ptime.value);
      }
      if o.maxptime.Some? {
        Upsert("maxptime", o.maxptime.value);
      }
    }

    method ApplyDestination(o: Overrides) returns (ok: bool)
      modifies this
      ensures !ok <==> LegOutcome(old(media), o).MissingConnection?
      ensures media == if ok then Destined(h, Ported(old(media), o), o) else Ported(old(media), o)
    {
      if o.destinationPort.Some? {
        media := media.(port := o.destinationPort.value);
      }
      if o.destinationIp.Some? && ConnectionAddress(media.connections) != o.destinationIp {
        ok := ReplaceConnectionAddress(o.destinationIp.value);
        if !ok {
          return;
        }
        UpdateSourceFilterDestination(o.destinationIp.value);
      }
      return true;
    }

    /** A refusal leaves the edits made so far; the caller then drops the message. */
    method ApplyPrimaryLeg(o: Overrides) returns (outcome: Outcome)
      modifies this
      ensures outcome == LegOutcome(old(media), o)
      ensures media ==
        match outcome
        case Applied => PrimaryLeg(h, old(media), o)
        case MissingConnection => Ported(old(media), o)
        case InvalidPayloadType | MissingPt => Addressed(h, old(media), o)
    {
      var ok := ApplyDestination(o);
      if !ok {
        return MissingConnection;
      }
      ApplyLocal(o);
      if o.sourceIp.Some? {
        Upsert(SOURCE_FILTER, IncludeFilter(FilterDestination(media.connections, o), o.sourceIp.value));
      }
      if o.payloadType.Some? {
        if !(96 <= o.payloadType.value <= 127) {
          return InvalidPayloadType;
        }
        ok := RewritePayloadType(DecimalText(o.payloadType.value));
        if !ok {
          return MissingPt;
        }
      }
      ApplyAudio(o);
      if TransportSet(o) {
        RemoveByKey("inactive");
      }
      return Applied;
    }
  }

  function Overridden(h: Helpers, m: Media, o: Overrides): Media {
    PrimaryLeg(h, CapsModed(m, o.capsMode), o)
  }

  /** The caps mode reaches every media description, the transport overrides only the first. */
  method ApplyMediaOverrides(sections: seq<Section>, o: Overrides) returns (outcome: Outcome)
    requires forall i, j :: 0 <= i < j < |sections| ==> sections[i] != sections[j]
    modifies sections
    ensures forall i :: 0 < i < |sections| ==> sections[i].media == CapsModed(old(sections[i].media), o.capsMode)
    ensures outcome == if sections == [] then Applied else LegOutcome(old(sections[0].media), o)
    ensures outcome.Applied? && sections != [] ==>
      sections[0].media == Overridden(sections[0].h, old(sections[0].media), o)
    ensures outcome.MissingConnection? ==>
      sections[0].media == Ported(CapsModed(old(sections[0].media), o.capsMode), o)
    ensures outcome.InvalidPayloadType? || outcome.MissingPt? ==>
      sections[0].media == Addressed(sections[0].h, CapsModed(old(sections[0].media), o.capsMode), o)
  {
    for idx := 0 to |sections|
      invariant forall i :: 0 <= i < idx ==> sections[i].media == CapsModed(old(sections[i].media), o.capsMode)
      invariant forall i :: idx <= i < |sections| ==> sections[i].media == old(sections[i].media)
    {
      sections[idx].ApplyCapsMode(o.capsMode);
    }
    if sections == [] {
      return Applied;
    }
    outcome := sections[0].ApplyPrimaryLeg(o);
  }

  lemma SpliceOut(attributes: Attributes, idx: nat, keep: string -> bool)
    requires idx < |attributes| && !keep(attributes[idx].key)
    ensures Kept(attributes[..idx] + attributes[idx + 1..], keep) == Kept(attributes, keep)
  {
    var before, after := attributes[..idx], attributes[idx + 1..];
    assert attributes == before + ([attributes[idx]] + after);
    KeptConcat(before, [attributes[idx]] + after, keep);
    KeptConcat(before, after, keep);
    KeptHead(attributes[idx], after, keep);
  }
}
