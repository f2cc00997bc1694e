/**
 What the overrides make of the payload type, the clock rate and the connection of the
 media they are applied to, and when they are refused.
 */
module SdpFormats {
  import opened Types
  import opened SdpAttributes
  import opened SdpPassthrough
  import opened SdpLaws

  /** The attributes of one key, in order. */
  function Lines(m: Media, key: string): Attributes {
    Kept(m.attributes, Is(key))
  }

  /** The payload type changes to another one. */
  predicate Renumbers(m: Media, o: Overrides) {
    m.formats != [] && o.payloadType.Some? && m.formats[0] != DecimalText(o.payloadType.value)
  }

  function Renumbered(h: Helpers, m: Media, o: Overrides, key: string): Attributes {
    if Renumbers(m, o) then Mapped(Lines(m, key), Repoint(h, m.formats[0], DecimalText(o.payloadType.value)))
    else Lines(m, key)
  }

  /** Up to the audio edits, the rtpmap and fmtp lines only change with the payload type. */
  lemma LinesRepaid(h: Helpers, m: Media, o: Overrides, key: string)
    requires key == "rtpmap" || key == "fmtp"
    ensures
      var paid := Repaid(h, Addressed(h, CapsModed(m, o.capsMode), o), o);
      Lines(paid, key) == Renumbered(h, m, o, key) && paid.isAudio == m.isAudio
  {
    KeysDiffer();
    var a := CapsModed(m, o.capsMode);
    CapsModedKept(m, o.capsMode, Is(key));
    AddressedKept(h, a, o, Is(key));
    ShapeAddressed(h, a, o);
    RepaidLines(h, Addressed(h, a, o), o, key);
  }

  lemma RepaidLines(h: Helpers, m: Media, o: Overrides, key: string)
    ensures Lines(Repaid(h, m, o), key) == Renumbered(h, m, o, key)
  {
    if Renumbers(m, o) {
      MappedKept(m.attributes, Repoint(h, m.formats[0], DecimalText(o.payloadType.value)), Is(key));
    }
  }

  lemma FmtpLines(h: Helpers, m: Media, o: Overrides)
    ensures Lines(Overridden(h, m, o), "fmtp") == Renumbered(h, m, o, "fmtp")
  {
    KeysDiffer();
    LinesRepaid(h, m, o, "fmtp");
    var paid := Repaid(h, Addressed(h, CapsModed(m, o.capsMode), o), o);
    TimedKept(h, paid, o, Is("fmtp"));
    ActivatedKept(Timed(h, paid, o), o, Is("fmtp"));
  }

  lemma RtpmapLines(h: Helpers, m: Media, o: Overrides)
    ensures
      var lines := Renumbered(h, m, o, "rtpmap");
      Lines(Overridden(h, m, o), "rtpmap") ==
        if m.isAudio && o.audioClockRate.Some?
        then FirstReplaced(lines, Reclocked(h, o.audioClockRate.value)) else lines
  {
    KeysDiffer();
    LinesRepaid(h, m, o, "rtpmap");
    var paid := Repaid(h, Addressed(h, CapsModed(m, o.capsMode), o), o);
    RtpmapTimed(h, paid, o);
    ActivatedKept(Timed(h, paid, o), o, Is("rtpmap"));
  }

  lemma RtpmapTimed(h: Helpers, m: Media, o: Overrides)
    ensures Lines(Timed(h, m, o), "rtpmap") ==
      if m.isAudio && o.audioClockRate.Some?
      then FirstReplaced(Lines(m, "rtpmap"), Reclocked(h, o.audioClockRate.value)) else Lines(m, "rtpmap")
  {
    KeysDiffer();
    if m.isAudio {
      var a := m.attributes;
      if o.audioClockRate.Some? {
        FirstReplacedKept(a, Reclocked(h, o.audioClockRate.value), "rtpmap", Is("rtpmap"));
        a := FirstReplaced(a, Reclocked(h, o.audioClockRate.value));
      }
      if o.ptime.Some? {
        UpsertedKept(a, "ptime", o.ptime.value, Is("rtpmap"));
        a := Upserted(a, "ptime", o.ptime.value);
      }
      if o.maxptime.Some? {
        UpsertedKept(a, "maxptime", o.maxptime.value, Is("rtpmap"));
      }
    }
  }

  /** The clock rate is left to the rtpmap of audio. */
  predicate KeepsRate(m: Media, o: Overrides, key: string) {
    key == "fmtp" || (key == "rtpmap" && (!m.isAudio || o.audioClockRate.None?))
  }

  /**
   With a payload type override every rtpmap and fmtp that named the old type names the new one
   in its place, with the rest of its text; those of other types stay as they are.
   */
  lemma FormatsFollowPayload(h: Helpers, m: Media, o: Overrides, key: string, i: nat)
    requires m.formats != [] && o.payloadType.Some? && KeepsRate(m, o, key)
    requires i < |Lines(m, key)| && Lines(m, key)[i].value.Some?
    ensures
      var oldPt, newPt := m.formats[0], DecimalText(o.payloadType.value);
      var value, after := Lines(m, key)[i].value.value, Lines(Overridden(h, m, o), key);
      && |after| == |Lines(m, key)|
      && (forall rest :: oldPt != newPt && value == oldPt + " " + rest ==>
            after[i] == Attribute(key, Some(h.canonical(key, newPt + " " + rest))))
      && (oldPt == newPt || !(oldPt + " " <= value) ==> after[i] == Lines(m, key)[i])
  {
    KeysDiffer();
    if key == "fmtp" {
      FmtpLines(h, m, o);
    } else {
      RtpmapLines(h, m, o);
    }
    KeptOfKey(m.attributes, key);
    MappedAt(Lines(m, key), Repoint(h, m.formats[0], DecimalText(o.payloadType.value)));
    forall rest | Lines(m, key)[i].value.value == m.formats[0] + " " + rest
      ensures Lines(m, key)[i].value.value[|m.formats[0]| + 1..] == rest
    {
    }
  }

  /** Whether an rtpmap can take the rate. */
  predicate TakesRate(h: Helpers, line: Attribute, rate: nat) {
    line.value.Some? && h.withClockRate(line.value.value, rate).Some?
  }

  /** A clock rate override of audio reaches the first rtpmap that can take it, after any change of payload type. */
  lemma ClockRateIsWritten(h: Helpers, m: Media, o: Overrides, i: nat)
    requires m.isAudio && o.audioClockRate.Some?
    ensures
      var rate, lines := o.audioClockRate.value, Renumbered(h, m, o, "rtpmap");
      var after := Lines(Overridden(h, m, o), "rtpmap");
      && ((forall j :: 0 <= j < |lines| ==> !TakesRate(h, lines[j], rate)) ==> after == lines)
      && (i < |lines| && TakesRate(h, lines[i], rate) && (forall j :: 0 <= j < i ==> !TakesRate(h, lines[j], rate)) ==>
            after == lines[i := Attribute("rtpmap",
              Some(h.canonical("rtpmap", h.withClockRate(lines[i].value.value, rate).value)))])
  {
    var rate, lines := o.audioClockRate.value, Renumbered(h, m, o, "rtpmap");
    RtpmapLines(h, m, o);
    RenumberedKeys(h, m, o);
    assert forall j :: 0 <= j < |lines| ==> (Reclocked(h, rate)(lines[j]).Some? <==> TakesRate(h, lines[j], rate));
    if forall j :: 0 <= j < |lines| ==> !TakesRate(h, lines[j], rate) {
      FirstReplacedNowhere(lines, Reclocked(h, rate));
    }
    if i < |lines| && TakesRate(h, lines[i], rate) && forall j :: 0 <= j < i ==> !TakesRate(h, lines[j], rate) {
      FirstReplacedAt(lines, i, Reclocked(h, rate));
    }
  }

  lemma RenumberedKeys(h: Helpers, m: Media, o: Overrides)
    ensures forall j :: 0 <= j < |Renumbered(h, m, o, "rtpmap")| ==> Renumbered(h, m, o, "rtpmap")[j].key == "rtpmap"
  {
    KeptOfKey(m.attributes, "rtpmap");
    if Renumbers(m, o) {
      MappedAt(Lines(m, "rtpmap"), Repoint(h, m.formats[0], DecimalText(o.payloadType.value)));
    }
  }

  /**
   A new destination goes to the first connection only. A multicast address keeps the time-to-live
   it had, or gets the default one; any other address has none.
   */
  lemma ConnectionIsWritten(h: Helpers, m: Media, o: Overrides)
    requires !LegOutcome(m, o).MissingConnection? && Moves(m.connections, o)
    ensures
      var before, after, dest := m.connections, Overridden(h, m, o).connections, o.destinationIp.value;
      && |after| == |before| && before != [] && after[1..] == before[1..]
      && after[0].address == Some(dest) && after[0].addrNumber == before[0].addrNumber
      && after[0].nettype == Some(if before[0].nettype.Some? then before[0].nettype.value else "IN")
      && after[0].addrtype == Some(if before[0].addrtype.Some? then before[0].addrtype.value else "IP4")
      && (after[0].ttl > 0 <==> h.isMulticast(dest))
      && (h.isMulticast(dest) ==> after[0].ttl == if before[0].ttl > 0 then before[0].ttl else 32)
  {
    ConnectionsAfter(h, m, o);
  }

  /** A media description is taken out of inactive exactly when some address or port is overridden. */
  lemma InactiveIsLifted(h: Helpers, m: Media, o: Overrides)
    ensures Lines(Overridden(h, m, o), "inactive") ==
      if o.destinationIp.Some? || o.destinationPort.Some? || o.interfaceIp.Some? || o.sourceIp.Some? || o.sourcePort.Some?
      then [] else Lines(m, "inactive")
  {
    KeysDiffer();
    var a := Addressed(h, CapsModed(m, o.capsMode), o);
    CapsModedKept(m, o.capsMode, Is("inactive"));
    AddressedKept(h, CapsModed(m, o.capsMode), o, Is("inactive"));
    RepaidKept(h, a, o, Is("inactive"));
    var timed := Timed(h, Repaid(h, a, o), o);
    TimedKept(h, Repaid(h, a, o), o, Is("inactive"));
    NoneLeft(timed.attributes, "inactive");
  }

  /**
   Overrides are applied unless a destination has no connection to go to, or a payload type is not
   a dynamic one or has no format to replace; so an applied payload type is a dynamic one.
   */
  lemma AppliedIff(h: Helpers, m: Media, o: Overrides)
    ensures
      var applied := LegOutcome(m, o).Applied?;
      && (applied <==>
            && (Moves(m.connections, o) ==> m.connections != [])
            && (o.payloadType.Some? ==> 96 <= o.payloadType.value <= 127 && m.formats != []))
      && (applied && o.payloadType.Some? ==>
            var formats := Overridden(h, m, o).formats;
            formats != [] && formats[0] == DecimalText(o.payloadType.value))
  {
    if LegOutcome(m, o).Applied? {
      PayloadIsWritten(h, m, o);
    }
  }
}
