/**
 What the SDP overrides keep, whatever their combination: the file's own attributes, the
 marker of an unconstrained receiver, and the agreement of source filter and connection.
 */
module SdpLaws {
  import opened Types
  import opened Text
  import opened SdpAttributes
  import opened SdpPassthrough

  // What every override combination keeps

  lemma RepaidKept(h: Helpers, m: Media, o: Overrides, keep: string -> bool)
    requires !keep("rtpmap") && !keep("fmtp") && !keep(CAPS)
    ensures Kept(Repaid(h, m, o).attributes, keep) == Kept(m.attributes, keep)
  {
    if Repaid(h, m, o) != m {
      RepointedKept(h, m.attributes, m.formats[0], DecimalText(o.payloadType.value), keep);
    }
  }

  lemma RepointedKept(h: Helpers, attributes: Attributes, oldPt: string, newPt: string, keep: string -> bool)
    requires !keep("rtpmap") && !keep("fmtp") && !keep(CAPS)
    ensures Kept(Mapped(attributes, Repoint(h, oldPt, newPt)), keep) == Kept(attributes, keep)
  {
    var kept := Kept(attributes, keep);
    MappedKept(attributes, Repoint(h, oldPt, newPt), keep);
    KeptMeaning(attributes, keep);
    assert forall i :: 0 <= i < |kept| ==> kept[i] in kept;
    MappedSame(kept, Repoint(h, oldPt, newPt));
  }

  lemma LocalisedKept(h: Helpers, m: Media, o: Overrides, keep: string -> bool)
    requires !keep(IFACE_IP) && !keep(IFACE) && !keep(SRC_PORT)
    ensures Kept(Localised(h, m, o).attributes, keep) == Kept(m.attributes, keep)
  {
    var a := m.attributes;
    if o.interfaceIp.Some? {
      var ip := o.interfaceIp.value;
      var stamped := Upserted(a, IFACE_IP, ip);
      UpsertedKept(a, IFACE_IP, ip, keep);
      KeptAfterRemoval(stamped, IFACE, keep);
      if h.ifaceFor(ip).Some? {
        UpsertedKept(stamped, IFACE, h.ifaceFor(ip).value, keep);
      }
      a := Synced(h, a, ip);
    }
    if o.sourcePort.Some? {
      UpsertedKept(a, SRC_PORT, DecimalText(o.sourcePort.value), keep);
    }
  }

  lemma TimedKept(h: Helpers, m: Media, o: Overrides, keep: string -> bool)
    requires !keep("rtpmap") && !keep("ptime") && !keep("maxptime")
    ensures Kept(Timed(h, m, o).attributes, keep) == Kept(m.attributes, keep)
  {
    var a := m.attributes;
    if o.audioClockRate.Some? {
      var edit := Reclocked(h, o.audioClockRate.value);
      FirstReplacedKept(a, edit, "rtpmap", keep);
      a := FirstReplaced(a, edit);
    }
    if o.ptime.Some? {
      UpsertedKept(a, "ptime", o.ptime.value, keep);
      a := Upserted(a, "ptime", o.ptime.value);
    }
    if o.maxptime.Some? {
      UpsertedKept(a, "maxptime", o.maxptime.value, keep);
    }
  }

  lemma ActivatedKept(m: Media, o: Overrides, keep: string -> bool)
    requires !keep("inactive")
    ensures Kept(Activated(m, o).attributes, keep) == Kept(m.attributes, keep)
  {
    KeptAfterRemoval(m.attributes, "inactive", keep);
  }

  lemma DestinedKept(h: Helpers, m: Media, o: Overrides, keep: string -> bool)
    requires !keep(SOURCE_FILTER)
    ensures Kept(Destined(h, m, o).attributes, keep) == Kept(m.attributes, keep)
  {
    if o.destinationIp.Some? {
      FirstReplacedKept(m.attributes, Redirect(o.destinationIp.value), SOURCE_FILTER, keep);
    }
  }

  lemma FilteredKept(m: Media, o: Overrides, keep: string -> bool)
    requires !keep(SOURCE_FILTER)
    ensures Kept(Filtered(m, o).attributes, keep) == Kept(m.attributes, keep)
  {
    if o.sourceIp.Some? {
      UpsertedKept(m.attributes, SOURCE_FILTER, IncludeFilter(FilterDestination(m.connections, o), o.sourceIp.value), keep);
    }
  }

  lemma CapsModedKept(m: Media, mode: CapsMode, keep: string -> bool)
    requires !keep(CAPS)
    ensures Kept(CapsModed(m, mode).attributes, keep) == Kept(m.attributes, keep)
  {
    KeptAfterRemoval(m.attributes, CAPS, keep);
    UpsertedKept(m.attributes, CAPS, if m.formats != [] then m.formats[0] else "96", keep);
  }

  /** Attributes of keys the overrides do not know survive, in their order. */
  lemma OwnAttributesSurvive(h: Helpers, m: Media, o: Overrides)
    ensures Kept(Overridden(h, m, o).attributes, OwnKey()) == Kept(m.attributes, OwnKey())
  {
    var keep := OwnKey();
    var a := CapsModed(m, o.capsMode);
    CapsModedKept(m, o.capsMode, keep);
    AddressedKept(h, a, o, keep);
    FormattedKept(h, Addressed(h, a, o), o, keep);
  }

  lemma AddressedKept(h: Helpers, m: Media, o: Overrides, keep: string -> bool)
    requires !keep(SOURCE_FILTER) && !keep(IFACE_IP) && !keep(IFACE) && !keep(SRC_PORT)
    ensures Kept(Addressed(h, m, o).attributes, keep) == Kept(m.attributes, keep)
  {
    var a := Destined(h, Ported(m, o), o);
    DestinedKept(h, Ported(m, o), o, keep);
    LocalisedKept(h, a, o, keep);
    FilteredKept(Localised(h, a, o), o, keep);
  }

  lemma FormattedKept(h: Helpers, m: Media, o: Overrides, keep: string -> bool)
    requires !keep("rtpmap") && !keep("fmtp") && !keep(CAPS) && !keep("ptime") && !keep("maxptime") && !keep("inactive")
    ensures Kept(Formatted(h, m, o).attributes, keep) == Kept(m.attributes, keep)
  {
    RepaidKept(h, m, o, keep);
    TimedKept(h, Repaid(h, m, o), o, keep);
    ActivatedKept(Timed(h, Repaid(h, m, o), o), o, keep);
  }

  // Every override is found where it was put

  lemma ValueUpserted(attributes: Attributes, key: string, value: string)
    ensures ValueOf(Upserted(attributes, key, value), key) == Some(value)
  {
    UpsertedMeaning(attributes, key, value);
  }

  lemma {:induction false} NoneLeft(attributes: Attributes, key: string)
    ensures Kept(Kept(attributes, IsNot(key)), Is(key)) == []
  {
    if attributes != [] {
      NoneLeft(attributes[1..], key);
      KeptHead(attributes[0], Kept(attributes[1..], IsNot(key)), Is(key));
    }
  }

  lemma LocalisedValues(h: Helpers, m: Media, o: Overrides)
    ensures
      var after := Localised(h, m, o).attributes;
      && (o.interfaceIp.Some? ==>
            ValueOf(after, IFACE_IP) == o.interfaceIp && ValueOf(after, IFACE) == h.ifaceFor(o.interfaceIp.value))
      && (o.sourcePort.Some? ==> ValueOf(after, SRC_PORT) == Some(DecimalText(o.sourcePort.value)))
  {
    KeysDiffer();
    var a := if o.interfaceIp.Some? then Synced(h, m.attributes, o.interfaceIp.value) else m.attributes;
    if o.interfaceIp.Some? {
      SyncedValues(h, m.attributes, o.interfaceIp.value);
    }
    if o.sourcePort.Some? {
      var text := DecimalText(o.sourcePort.value);
      ValueUpserted(a, SRC_PORT, text);
      UpsertedKept(a, SRC_PORT, text, Is(IFACE_IP));
      UpsertedKept(a, SRC_PORT, text, Is(IFACE));
    }
  }

  lemma SyncedValues(h: Helpers, attributes: Attributes, ip: string)
    ensures
      var after := Synced(h, attributes, ip);
      ValueOf(after, IFACE_IP) == Some(ip) && ValueOf(after, IFACE) == h.ifaceFor(ip)
  {
    KeysDiffer();
    var stamped := Upserted(attributes, IFACE_IP, ip);
    ValueUpserted(attributes, IFACE_IP, ip);
    if h.ifaceFor(ip).Some? {
      ValueUpserted(stamped, IFACE, h.ifaceFor(ip).value);
      UpsertedKept(stamped, IFACE, h.ifaceFor(ip).value, Is(IFACE_IP));
    } else {
      NoneLeft(stamped, IFACE);
      KeptAfterRemoval(stamped, IFACE, Is(IFACE_IP));
    }
  }

  lemma TimedValues(h: Helpers, m: Media, o: Overrides)
    requires m.isAudio
    ensures
      var after := Timed(h, m, o).attributes;
      && (o.ptime.Some? ==> ValueOf(after, "ptime") == o.ptime)
      && (o.maxptime.Some? ==> ValueOf(after, "maxptime") == o.maxptime)
  {
    KeysDiffer();
    var a := if o.audioClockRate.Some? then FirstReplaced(m.attributes, Reclocked(h, o.audioClockRate.value)) else m.attributes;
    var b := if o.ptime.Some? then Upserted(a, "ptime", o.ptime.value) else a;
    if o.ptime.Some? {
      ValueUpserted(a, "ptime", o.ptime.value);
    }
    if o.maxptime.Some? {
      ValueUpserted(b, "maxptime", o.maxptime.value);
      UpsertedKept(b, "maxptime", o.maxptime.value, Is("ptime"));
    }
  }

  /** Local addresses, source and ports are found under their own keys after all other overrides. */
  lemma AddressesAreWritten(h: Helpers, m: Media, o: Overrides)
    ensures
      var r := Overridden(h, m, o);
      && (o.destinationPort.Some? ==> r.port == o.destinationPort.value)
      && (o.interfaceIp.Some? ==>
            && ValueOf(r.attributes, IFACE_IP) == o.interfaceIp
            && ValueOf(r.attributes, IFACE) == h.ifaceFor(o.interfaceIp.value))
      && (o.sourcePort.Some? ==> ValueOf(r.attributes, SRC_PORT) == Some(DecimalText(o.sourcePort.value)))
      && (TransportSet(o) ==> Kept(r.attributes, Is("inactive")) == [])
  {
    KeysDiffer();
    var a := Destined(h, Ported(CapsModed(m, o.capsMode), o), o);
    LocalisedValues(h, a, o);
    var b := Localised(h, a, o);
    var c := Filtered(b, o);
    WrittenIsKept(h, b, o, IFACE_IP);
    WrittenIsKept(h, b, o, IFACE);
    WrittenIsKept(h, b, o, SRC_PORT);
    PortKept(h, c, o);
    NoneLeft(Timed(h, Repaid(h, c, o), o).attributes, "inactive");
  }

  lemma WrittenIsKept(h: Helpers, m: Media, o: Overrides, key: string)
    requires key !in {SOURCE_FILTER, CAPS, "rtpmap", "fmtp", "ptime", "maxptime", "inactive"}
    ensures ValueOf(Formatted(h, Filtered(m, o), o).attributes, key) == ValueOf(m.attributes, key)
  {
    FilteredKept(m, o, Is(key));
    FormattedKept(h, Filtered(m, o), o, Is(key));
  }

  lemma PortKept(h: Helpers, m: Media, o: Overrides)
    ensures Formatted(h, m, o).port == m.port
  {
  }

  lemma ShapeAddressed(h: Helpers, m: Media, o: Overrides)
    ensures Addressed(h, m, o).formats == m.formats && Addressed(h, m, o).isAudio == m.isAudio
  {
  }

  /** The payload type is the first format, and the only format that changes. */
  lemma PayloadIsWritten(h: Helpers, m: Media, o: Overrides)
    requires LegOutcome(m, o).Applied?
    ensures Overridden(h, m, o).formats ==
      if o.payloadType.Some? then m.formats[0 := DecimalText(o.payloadType.value)] else m.formats
  {
    ShapeAddressed(h, CapsModed(m, o.capsMode), o);
  }

  /** The packet times of audio are found under their own keys. */
  lemma PacketTimesAreWritten(h: Helpers, m: Media, o: Overrides)
    requires m.isAudio
    ensures
      var r := Overridden(h, m, o);
      && (o.ptime.Some? ==> ValueOf(r.attributes, "ptime") == o.ptime)
      && (o.maxptime.Some? ==> ValueOf(r.attributes, "maxptime") == o.maxptime)
  {
    KeysDiffer();
    var a := Addressed(h, CapsModed(m, o.capsMode), o);
    ShapeAddressed(h, CapsModed(m, o.capsMode), o);
    var b := Repaid(h, a, o);
    TimedValues(h, b, o);
    ActivatedKept(Timed(h, b, o), o, Is("ptime"));
    ActivatedKept(Timed(h, b, o), o, Is("maxptime"));
  }

  // The marker of an unconstrained receiver

  lemma KeptOfKey(attributes: Attributes, key: string)
    ensures forall i :: 0 <= i < |Kept(attributes, Is(key))| ==> Kept(attributes, Is(key))[i].key == key
  {
    KeptMeaning(attributes, Is(key));
    assert forall a <- Kept(attributes, Is(key)) :: a.key == key;
  }

  lemma MarkerRepaid(h: Helpers, m: Media, o: Overrides)
    requires m.formats != []
    ensures
      var before, after := ValueOf(m.attributes, CAPS), Repaid(h, m, o);
      ValueOf(after.attributes, CAPS) == if before == Some(m.formats[0]) then Some(after.formats[0]) else before
  {
    if Repaid(h, m, o) != m {
      var edit := Repoint(h, m.formats[0], DecimalText(o.payloadType.value));
      var markers := Kept(m.attributes, Is(CAPS));
      MappedKept(m.attributes, edit, Is(CAPS));
      MappedAt(markers, edit);
      KeptOfKey(m.attributes, CAPS);
      KeysDiffer();
    }
  }

  /** A marker that names the payload type of the media follows it; any other is left as it is. */
  lemma MarkerFollows(h: Helpers, m: Media, o: Overrides)
    requires m.formats != []
    ensures
      var before, after := ValueOf(m.attributes, CAPS), PrimaryLeg(h, m, o);
      && after.formats != []
      && ValueOf(after.attributes, CAPS) == if before == Some(m.formats[0]) then Some(after.formats[0]) else before
  {
    KeysDiffer();
    var a := Addressed(h, m, o);
    AddressedKept(h, m, o, Is(CAPS));
    MarkerRepaid(h, a, o);
    var b := Repaid(h, a, o);
    TimedKept(h, b, o, Is(CAPS));
    ActivatedKept(Timed(h, b, o), o, Is(CAPS));
  }

  /** The caps mode decides whether there is a marker, and one it adds ends equal to the final payload type. */
  lemma MarkerAfterOverrides(h: Helpers, m: Media, o: Overrides)
    requires m.formats != []
    ensures
      var before, r := ValueOf(m.attributes, CAPS), Overridden(h, m, o);
      var after := ValueOf(r.attributes, CAPS);
      && r.formats != []
      && (o.capsMode.Constrained? ==> after.None?)
      && (o.capsMode.Unconstrained? ==> after.Some?)
      && (o.capsMode.Unconstrained? && before.None? ==> after == Some(r.formats[0]))
      && (!o.capsMode.Constrained? && before.Some? ==>
            after == if before == Some(m.formats[0]) then Some(r.formats[0]) else before)
  {
    MarkerFollows(h, CapsModed(m, o.capsMode), o);
    UpsertedMeaning(m.attributes, CAPS, m.formats[0]);
    NoneLeft(m.attributes, CAPS);
  }

  // Words of a source filter

  lemma FilterWords(mode: string, nettype: string, addrtype: string, dest: string, sources: string)
    requires Plain([mode, nettype, addrtype], White)
    ensures Words(FilterText(mode, nettype, addrtype, dest, sources), White)
         == [mode, nettype, addrtype] + (Words(dest, White) + Words(sources, White))
  {
    var head := " " + Join([mode, nettype, addrtype]);
    assert Words(head, White) == [mode, nettype, addrtype] by {
      WordsLed([mode, nettype, addrtype], White);
    }
    FilterWordsAfter(t => Words(t, White), head, dest, sources) by {
      WordsAppend(head + " " + dest, sources, White);
      WordsAppend(head, dest, White);
    }
  }

  lemma FilterWordsAfter(words: string -> seq<string>, head: string, dest: string, sources: string)
    requires words(head + " " + dest + " " + sources) == words(head + " " + dest) + words(sources)
    requires words(head + " " + dest) == words(head) + words(dest)
    ensures words(head + " " + dest + " " + sources) == words(head) + (words(dest) + words(sources))
  {
  }

  /** Of the words a destination and the sources make, the first is the stripped destination just when it is an address. */
  lemma FirstIsStripped(dest: string, sources: seq<string>)
    requires Plain(sources, White) && Words(dest, White) + sources != []
    ensures (Words(dest, White) + sources)[0] == StripSuffix(dest) <==> Address(dest)
  {
    WordEndMeaning(dest, Slash);
    WordsArePlain(dest, White);
    if Address(dest) {
      AddressWords(dest);
    } else if Words(dest, White) != [] {
      FirstNotStripped(dest);
    } else {
      NoWords(dest);
    }
  }

  lemma AddressWords(dest: string)
    requires Address(dest)
    ensures Words(dest, White) == [dest] && StripSuffix(dest) == dest
  {
    WordsJoin([dest], White);
    WordEndOf(dest, [], Slash);
    assert dest + [] == dest;
  }

  lemma {:induction false} NoWords(s: string)
    requires Words(s, White) == []
    ensures forall i :: 0 <= i < |s| ==> White(s[i])
  {
    if s != [] {
      StartsWithWord(s);
      SkipSeparator(s, White);
      NoWords(s[1..]);
    }
  }

  lemma StartsWithWord(s: string)
    requires s != []
    ensures White(s[0]) || Words(s, White) != []
  {
    assert s[0..] == s;
  }

  lemma FirstNotStripped(dest: string)
    requires !Address(dest) && Words(dest, White) != []
    ensures Words(dest, White)[0] != StripSuffix(dest)
  {
    assert dest != "";
    if White(dest[0]) {
      WordsArePlain(dest, White);
      assert StripSuffix(dest)[0] == dest[0];
    } else {
      assert dest[0..] == dest;
      WordEndMeaning(dest, White);
      WordEndMeaning(dest, Slash);
      assert Words(dest, White)[0] == dest[..WordEnd(dest, White)];
    }
  }

  // Source filters agree with the connection

  function Filters(m: Media): Attributes {
    Kept(m.attributes, Is(SOURCE_FILTER))
  }

  predicate FilterAgrees(filter: Attribute, address: Option<string>) {
    HasDestination(filter) ==> Destination(filter.value.value) == address
  }

  predicate AllAgree(filters: Attributes, address: Option<string>) {
    forall filter <- filters :: FilterAgrees(filter, address)
  }

  predicate Agrees(m: Media) {
    AllAgree(Filters(m), ConnectionAddress(m.connections))
  }

  /** A filter written for this destination with this many source words names the stripped destination, or names none. */
  predicate Names(dest: string, sources: nat) {
    Address(dest) || |Words(dest, White)| + sources < 2
  }

  function SourceWords(filter: Attribute): nat {
    if filter.value.None? then 0
    else
      var words := Words(filter.value.value, White);
      if |words| >= 5 then |words| - 4 else 0
  }

  predicate HasDestination(filter: Attribute) {
    filter.value.Some? && Destination(filter.value.value).Some?
  }

  /** What a caller can check beforehand: every filter the overrides write is written for a proper address. */
  predicate StaysAgreed(m: Media, o: Overrides) {
    if o.sourceIp.Some? then Names(FilterDestination(m.connections, o), |Words(o.sourceIp.value, White)|)
    else if !Moves(m.connections, o) then true
    else forall filter <- Filters(m) :: HasDestination(filter) ==> Names(o.destinationIp.value, SourceWords(filter))
  }

  /** The written filter against a connection with the same destination. */
  lemma WrittenAgrees(mode: string, nettype: string, addrtype: string, dest: string, sources: string, address: Option<string>)
    requires Plain([mode, nettype, addrtype], White)
    requires address == Some(StripSuffix(dest)) || (address.None? && dest == "")
    ensures
      var named := Destination(FilterText(mode, nettype, addrtype, dest, sources));
      (named.Some? ==> named == address) <==> Names(dest, |Words(sources, White)|)
  {
    FilterWords(mode, nettype, addrtype, dest, sources);
    WordsArePlain(sources, White);
    var tail := Words(dest, White) + Words(sources, White);
    if |tail| >= 2 {
      FirstIsStripped(dest, Words(sources, White));
    }
  }

  lemma StripTwice(address: string)
    ensures StripSuffix(StripSuffix(address)) == StripSuffix(address)
  {
    WordEndMeaning(address, Slash);
    var once := StripSuffix(address);
    WordEndOf(once, [], Slash);
    assert once + [] == once;
  }

  predicate Moves(connections: seq<Connection>, o: Overrides) {
    o.destinationIp.Some? && ConnectionAddress(connections) != o.destinationIp
  }

  function MovedFilters(connections: seq<Connection>, filters: Attributes, o: Overrides): Attributes {
    if Moves(connections, o) then FirstReplaced(filters, Redirect(o.destinationIp.value)) else filters
  }

  /** Only two edits reach the filters: the new destination, then the new source. */
  function WrittenFilters(connections: seq<Connection>, filters: Attributes, o: Overrides): Attributes {
    var moved := MovedFilters(connections, filters, o);
    if o.sourceIp.None? then moved
    else Upserted(moved, SOURCE_FILTER, IncludeFilter(FilterDestination(connections, o), o.sourceIp.value))
  }

  lemma FiltersAfter(h: Helpers, m: Media, o: Overrides)
    requires !LegOutcome(m, o).MissingConnection?
    ensures Filters(Overridden(h, m, o)) == WrittenFilters(m.connections, Filters(m), o)
  {
    KeysDiffer();
    var a := CapsModed(m, o.capsMode);
    CapsModedKept(m, o.capsMode, Is(SOURCE_FILTER));
    FiltersAddressed(h, a, o);
    FormattedKept(h, Addressed(h, a, o), o, Is(SOURCE_FILTER));
  }

  lemma FiltersAddressed(h: Helpers, m: Media, o: Overrides)
    requires !LegOutcome(m, o).MissingConnection?
    ensures Filters(Addressed(h, m, o)) == WrittenFilters(m.connections, Filters(m), o)
  {
    KeysDiffer();
    var keep := Is(SOURCE_FILTER);
    if Moves(m.connections, o) {
      FirstReplacedKept(m.attributes, Redirect(o.destinationIp.value), SOURCE_FILTER, keep);
    }
    var a := Destined(h, Ported(m, o), o);
    LocalisedKept(h, a, o, keep);
    var b := Localised(h, a, o);
    if o.sourceIp.Some? {
      MovedAddress(h, m, o);
      UpsertedKept(b.attributes, SOURCE_FILTER, IncludeFilter(FilterDestination(b.connections, o), o.sourceIp.value), keep);
    }
  }

  lemma ConnectionsAfter(h: Helpers, m: Media, o: Overrides)
    ensures Overridden(h, m, o).connections == Destined(h, m, o).connections
  {
    var a := CapsModed(m, o.capsMode);
    ConnectionsFormatted(h, Addressed(h, a, o), o);
    ConnectionsAddressed(h, a, o);
  }

  lemma ConnectionsFormatted(h: Helpers, m: Media, o: Overrides)
    ensures Formatted(h, m, o).connections == m.connections
  {
  }

  lemma ConnectionsAddressed(h: Helpers, m: Media, o: Overrides)
    ensures Addressed(h, m, o).connections == Destined(h, m, o).connections
  {
  }

  lemma UpsertedOnlyOne(filters: Attributes, key: string, value: string)
    requires |filters| <= 1 && forall i :: 0 <= i < |filters| ==> filters[i].key == key
    ensures Upserted(filters, key, value) == [Attribute(key, Some(value))]
  {
  }

  lemma RedirectedOnlyOne(filters: Attributes, dest: string)
    requires |filters| <= 1 && forall i :: 0 <= i < |filters| ==> filters[i].key == SOURCE_FILTER
    ensures FirstReplaced(filters, Redirect(dest)) ==
      if filters != [] && HasDestination(filters[0])
      then [Attribute(SOURCE_FILTER, WithDestination(filters[0].value.value, dest))] else filters
  {
  }

  /** A redirected filter agrees with the moved connection just when it could be written for that destination. */
  lemma RedirectedAgrees(filter: Attribute, dest: string)
    requires HasDestination(filter)
    ensures
      var named := Destination(WithDestination(filter.value.value, dest).value);
      (named.Some? ==> named == Some(StripSuffix(dest))) <==> Names(dest, SourceWords(filter))
  {
    var words := Words(filter.value.value, White);
    WordsArePlain(filter.value.value, White);
    var sources := words[4..];
    WordsJoin(sources, White);
    WrittenAgrees(words[0], words[1], words[2], dest, Join(sources), Some(StripSuffix(dest)));
  }

  lemma IncludedAgrees(dest: string, source: string, address: Option<string>)
    requires address == Some(StripSuffix(dest)) || (address.None? && dest == "")
    ensures
      var named := Destination(IncludeFilter(dest, source));
      (named.Some? ==> named == address) <==> Names(dest, |Words(source, White)|)
  {
    assert "incl" != [] && "IN" != [] && "IP4" != [];
    WrittenAgrees("incl", "IN", "IP4", dest, source, address);
  }

  lemma MovedAddress(h: Helpers, m: Media, o: Overrides)
    requires !LegOutcome(m, o).MissingConnection?
    ensures
      var connections := Destined(h, m, o).connections;
      var after, dest := ConnectionAddress(connections), FilterDestination(m.connections, o);
      && FilterDestination(connections, o) == dest
      && (o.destinationIp.Some? ==> after == Some(StripSuffix(o.destinationIp.value)))
      && (after.None? ==> dest == "")
      && (after.Some? ==> after.value == StripSuffix(dest))
  {
    if m.connections != [] && m.connections[0].address.Some? {
      StripTwice(m.connections[0].address.value);
    }
  }

  /** The connection takes the destination, and the filter the source for that destination. */
  lemma SteeringIsWritten(h: Helpers, m: Media, o: Overrides)
    requires !LegOutcome(m, o).MissingConnection?
    ensures
      var r := Overridden(h, m, o);
      && (o.destinationIp.Some? ==> ConnectionAddress(r.connections) == Some(StripSuffix(o.destinationIp.value)))
      && (o.destinationIp.None? ==> r.connections == m.connections)
      && (o.sourceIp.Some? ==>
            ValueOf(r.attributes, SOURCE_FILTER) ==
              Some(IncludeFilter(FilterDestination(m.connections, o), o.sourceIp.value)))
      && (o.sourceIp.None? && o.destinationIp.None? ==> Filters(r) == Filters(m))
  {
    ConnectionsAfter(h, m, o);
    MovedAddress(h, m, o);
    FiltersAfter(h, m, o);
    if o.sourceIp.Some? {
      var text := IncludeFilter(FilterDestination(m.connections, o), o.sourceIp.value);
      var moved := MovedFilters(m.connections, Filters(m), o);
      KeptOfKey(m.attributes, SOURCE_FILTER);
      assert moved != [] ==> moved[0].key == SOURCE_FILTER;
      assert Upserted(moved, SOURCE_FILTER, text)[0] == Attribute(SOURCE_FILTER, Some(text));
    }
  }

  /**
   A filter that agreed with the connection before agrees after any overrides exactly when what
   they write into it is a proper address: a single word, without the suffix a connection may carry.
   */
  lemma AgreementKept(h: Helpers, m: Media, o: Overrides)
    requires |Filters(m)| <= 1 && Agrees(m) && !LegOutcome(m, o).MissingConnection?
    ensures Agrees(Overridden(h, m, o)) <==> StaysAgreed(m, o)
  {
    var filters, connections := Filters(m), Destined(h, m, o).connections;
    FiltersAfter(h, m, o);
    ConnectionsAfter(h, m, o);
    MovedAddress(h, m, o);
    KeptOfKey(m.attributes, SOURCE_FILTER);
    if o.sourceIp.Some? {
      WrittenByInclude(m.connections, filters, o, ConnectionAddress(connections));
      assert Agrees(Overridden(h, m, o)) <==> AllAgree(WrittenFilters(m.connections, filters, o), ConnectionAddress(connections));
    } else if Moves(m.connections, o) {
      WrittenByRedirect(filters, o.destinationIp.value);
    }
  }

  lemma WrittenByInclude(connections: seq<Connection>, filters: Attributes, o: Overrides, address: Option<string>)
    requires o.sourceIp.Some? && |filters| <= 1
    requires forall i :: 0 <= i < |filters| ==> filters[i].key == SOURCE_FILTER
    requires
      var dest := FilterDestination(connections, o);
      address == Some(StripSuffix(dest)) || (address.None? && dest == "")
    ensures AllAgree(WrittenFilters(connections, filters, o), address)
       <==> Names(FilterDestination(connections, o), |Words(o.sourceIp.value, White)|)
  {
    var dest := FilterDestination(connections, o);
    var written := IncludeFilter(dest, o.sourceIp.value);
    if Moves(connections, o) {
      RedirectedOnlyOne(filters, o.destinationIp.value);
    }
    UpsertedOnlyOne(MovedFilters(connections, filters, o), SOURCE_FILTER, written);
    IncludedAgrees(dest, o.sourceIp.value, address);
    OneAgrees(Attribute(SOURCE_FILTER, Some(written)), address);
  }

  lemma WrittenByRedirect(filters: Attributes, dest: string)
    requires |filters| <= 1
    requires forall i :: 0 <= i < |filters| ==> filters[i].key == SOURCE_FILTER
    ensures AllAgree(FirstReplaced(filters, Redirect(dest)), Some(StripSuffix(dest)))
       <==> forall filter <- filters :: HasDestination(filter) ==> Names(dest, SourceWords(filter))
  {
    RedirectedOnlyOne(filters, dest);
    if filters != [] && HasDestination(filters[0]) {
      RedirectedAgrees(filters[0], dest);
      OneAgrees(Attribute(SOURCE_FILTER, WithDestination(filters[0].value.value, dest)), Some(StripSuffix(dest)));
      assert forall filter <- filters :: filter == filters[0];
      assert filters[0] in filters;
    }
  }

  lemma OneAgrees(filter: Attribute, address: Option<string>)
    ensures AllAgree([filter], address) <==> FilterAgrees(filter, address)
  {
    assert filter in [filter];
  }

  function MovedExample(group: string, source: string): Media {
    Media(false, 5004, ["96"], [Connection(Some("IN"), Some("IP4"), Some(group), 32, 1)],
          [Attribute(SOURCE_FILTER, Some(IncludeFilter(group, source)))])
  }

  function MoveTo(dest: string): Overrides {
    Overrides(Some(dest), None, None, None, None, None, None, None, None, Auto)
  }

  lemma ExampleAgrees(group: string, source: string)
    requires Address(group) && Address(source)
    ensures
      var m := MovedExample(group, source);
      && Filters(m) == m.attributes && HasDestination(m.attributes[0]) && SourceWords(m.attributes[0]) == 1
      && ConnectionAddress(m.connections) == Some(group) && Agrees(m)
  {
    var m := MovedExample(group, source);
    KeptAll(m.attributes, Is(SOURCE_FILTER));
    AddressWords(group);
    AddressWords(source);
    FilterWords("incl", "IN", "IP4", group, source);
    IncludedAgrees(group, source, Some(group));
    OneAgrees(m.attributes[0], Some(group));
  }

  /** Moving a connection and filter that agree to any word that has a suffix leaves them disagreeing. */
  lemma SuffixBreaksAgreement(h: Helpers, group: string, source: string, dest: string)
    requires Address(group) && Address(source)
    requires dest != "" && Free(dest, White) && '/' in dest
    ensures
      var m, o := MovedExample(group, source), MoveTo(dest);
      Agrees(m) && LegOutcome(m, o).Applied? && !Agrees(Overridden(h, m, o))
  {
    var m, o := MovedExample(group, source), MoveTo(dest);
    ExampleAgrees(group, source);
    WordsJoin([dest], White);
    assert m.attributes[0] in Filters(m);
    assert !Names(dest, 1);
    AgreementKept(h, m, o);
  }

  lemma SuffixBreaksAgreementExample(h: Helpers)
    ensures !Agrees(Overridden(h, MovedExample("239.1.1.1", "192.0.2.1"), MoveTo("239.2.2.2/32")))
  {
    assert "239.2.2.2/32"[9] == '/';
    SuffixBreaksAgreement(h, "239.1.1.1", "192.0.2.1", "239.2.2.2/32");
  }
}
