/**
 The text form of a node interface in a transport file:
 name, optional chassis id, port id, optional attached chassis and port ids.
 */
module Iface {
  import opened Types
  import opened NodeInterfaces
  import opened Text

  predicate Space(c: char) {
    c == ' '
  }

  // MAC addresses

  predicate HexDigit(c: char) {
    '0' <= c <= '9' || 'a' <= c <= 'f' || 'A' <= c <= 'F'
  }

  predicate MacSeparator(c: char) {
    c == ':' || c == '-'
  }

  /** Six pairs of hexadecimal digits, a hyphen or colon between pairs. */
  predicate IsMac(s: string) {
    |s| == 17 && forall i :: 0 <= i < 17 ==> if i % 3 == 2 then MacSeparator(s[i]) else HexDigit(s[i])
  }

  predicate IsNormalMac(s: string) {
    |s| == 17 && forall i :: 0 <= i < 17 ==> if i % 3 == 2 then s[i] == '-' else '0' <= s[i] <= '9' || 'a' <= s[i] <= 'f'
  }

  function LowerHyphen(c: char): char {
    if c == ':' then '-' else if 'A' <= c <= 'Z' then c - 'A' + 'a' else c
  }

  function NormalizeMac(s: string): Option<string> {
    if IsMac(s) then Some(seq(|s|, i requires 0 <= i < |s| => LowerHyphen(s[i]))) else None
  }

  /** The value of a hexadecimal digit. */
  function HexValue(c: char): int
    requires HexDigit(c)
  {
    if c <= '9' then c as int - '0' as int
    else if c <= 'F' then c as int - 'A' as int + 10
    else c as int - 'a' as int + 10
  }

  /** Normalising keeps the value of every digit, so the same address is meant. */
  lemma NormalizeMacKeepsDigits(s: string)
    requires IsMac(s)
    ensures
      var t := NormalizeMac(s).value;
      IsMac(t) && forall i :: 0 <= i < 17 && i % 3 != 2 ==> HexValue(t[i]) == HexValue(s[i])
  {
    NormalizeMacMeaning(s);
    var t := NormalizeMac(s).value;
    assert IsMac(t) by {
      assert IsNormalMac(t);
    }
    forall i | 0 <= i < 17 && i % 3 != 2
      ensures HexValue(t[i]) == HexValue(s[i])
    {
      assert HexDigit(s[i]) && t[i] == LowerHyphen(s[i]);
    }
  }

  /** Normalising accepts exactly MAC addresses, gives the normal form, and leaves it alone. */
  lemma NormalizeMacMeaning(s: string)
    ensures NormalizeMac(s).Some? <==> IsMac(s)
    ensures NormalizeMac(s).Some? ==> IsNormalMac(NormalizeMac(s).value)
    ensures IsNormalMac(s) ==> NormalizeMac(s) == Some(s)
    ensures NormalizeMac(s).Some? ==> NormalizeMac(NormalizeMac(s).value) == NormalizeMac(s)
  {
    if IsNormalMac(s) {
      assert IsMac(s);
      NormalIsFixed(s);
    }
    if IsMac(s) {
      var t := NormalizeMac(s).value;
      assert forall i :: 0 <= i < 17 ==> t[i] == LowerHyphen(s[i]);
      assert IsNormalMac(t);
      assert IsMac(t);
      NormalIsFixed(t);
    }
  }

  lemma NormalIsFixed(s: string)
    requires IsNormalMac(s) && IsMac(s)
    ensures NormalizeMac(s) == Some(s)
  {
    var t := NormalizeMac(s).value;
    forall i | 0 <= i < |s|
      ensures t[i] == s[i]
    {
      assert if i % 3 == 2 then s[i] == '-' else '0' <= s[i] <= '9' || 'a' <= s[i] <= 'f';
    }
    assert t == s;
  }

  // Printing and parsing

  predicate Attached(i: NodeInterface) {
    i.attachedChassisId != "" && i.attachedPortId != ""
  }

  function WordsOf(i: NodeInterface): seq<string> {
    [i.name] + (if i.chassisId != "" then [i.chassisId] else []) + [i.portId]
    + (if Attached(i) then [i.attachedChassisId, i.attachedPortId] else [])
  }

  /** The text is built up member by member. */
  method MakeIface(i: NodeInterface) returns (text: string)
    ensures text == Join(WordsOf(i))
  {
    text := i.name;
    if i.chassisId != "" {
      text := text + " " + i.chassisId;
    }
    text := text + " " + i.portId;
    if Attached(i) {
      text := text + " " + i.attachedChassisId + " " + i.attachedPortId;
    }
    Printed(i);
    assert text == i.name + (if i.chassisId != "" then " " + i.chassisId else "") + " " + i.portId
      + (if Attached(i) then " " + i.attachedChassisId + " " + i.attachedPortId else "");
  }

  lemma Join2(a: string, b: string)
    ensures Join([a, b]) == a + " " + b
  {
    assert [a, b][1..] == [b];
  }

  lemma Join3(a: string, b: string, c: string)
    ensures Join([a, b, c]) == a + " " + b + " " + c
  {
    Join2(b, c);
    assert [a, b, c][1..] == [b, c];
  }

  lemma Join4(a: string, b: string, c: string, d: string)
    ensures Join([a, b, c, d]) == a + " " + b + " " + c + " " + d
  {
    Join3(b, c, d);
    assert [a, b, c, d][1..] == [b, c, d];
  }

  lemma Join5(a: string, b: string, c: string, d: string, e: string)
    ensures Join([a, b, c, d, e]) == a + " " + b + " " + c + " " + d + " " + e
  {
    Join4(b, c, d, e);
    assert [a, b, c, d, e][1..] == [b, c, d, e];
  }

  lemma Printed(i: NodeInterface)
    ensures Join(WordsOf(i)) == i.name + (if i.chassisId != "" then " " + i.chassisId else "") + " " + i.portId
      + (if Attached(i) then " " + i.attachedChassisId + " " + i.attachedPortId else "")
  {
    var words := WordsOf(i);
    if i.chassisId == "" && !Attached(i) {
      assert words == [i.name, i.portId];
      Join2(i.name, i.portId);
    } else if i.chassisId == "" {
      assert words == [i.name, i.portId, i.attachedChassisId, i.attachedPortId];
      Join4(i.name, i.portId, i.attachedChassisId, i.attachedPortId);
    } else if !Attached(i) {
      assert words == [i.name, i.chassisId, i.portId];
      Join3(i.name, i.chassisId, i.portId);
    } else {
      assert words == [i.name, i.chassisId, i.portId, i.attachedChassisId, i.attachedPortId];
      Join5(i.name, i.chassisId, i.portId, i.attachedChassisId, i.attachedPortId);
    }
  }

  function ParseTokens(tokens: seq<string>): Option<NodeInterface> {
    if |tokens| < 2 || |tokens| > 5 then None
    else
      var hasChassis := |tokens| % 2 == 1;
      var portIndex := if hasChassis then 2 else 1;
      var hasAttached := |tokens| >= 4;
      var portId := NormalizeMac(tokens[portIndex]);
      if portId.None? then None
      else Some(NodeInterface(
        if hasChassis then tokens[1] else "",
        portId.value,
        tokens[0],
        if hasAttached then tokens[portIndex + 1] else "",
        if hasAttached then tokens[portIndex + 2] else ""))
  }

  function ParseIface(text: string): Option<NodeInterface> {
    ParseTokens(SplitCompressed(text, Space))
  }

  /** What survives printing: no spaces, a normal port id, and attached ids given together or not at all. */
  predicate Printable(i: NodeInterface) {
    && Free(i.name, Space) && Free(i.chassisId, Space) && IsNormalMac(i.portId)
    && Free(i.attachedChassisId, Space) && Free(i.attachedPortId, Space)
    && (i.attachedChassisId == "" <==> i.attachedPortId == "")
  }

  lemma ParsesWords(i: NodeInterface)
    requires Printable(i)
    ensures ParseTokens(WordsOf(i)) == Some(i)
  {
    NormalizeMacMeaning(i.portId);
  }

  lemma MacIsFree(s: string)
    requires IsNormalMac(s)
    ensures s != "" && Free(s, Space)
  {
  }

  /** Parsing the printed form gives the interface back exactly when it is printable. */
  lemma RoundTrip(i: NodeInterface)
    ensures ParseIface(Join(WordsOf(i))) == Some(i) <==> Printable(i)
  {
    var words := WordsOf(i);
    if Printable(i) {
      MacIsFree(i.portId);
      SplitJoin(words, Space);
      ParsesWords(i);
    }
    var parsed := ParseIface(Join(words));
    if parsed == Some(i) {
      ParsedIsPrintable(Join(words), i);
      if i.attachedChassisId == "" || i.attachedPortId == "" {
        UnattachedStaysUnattached(i);
      }
    }
  }

  lemma ParsedIsPrintable(text: string, i: NodeInterface)
    requires ParseIface(text) == Some(i)
    ensures Free(i.name, Space) && Free(i.chassisId, Space) && IsNormalMac(i.portId)
    ensures Free(i.attachedChassisId, Space) && Free(i.attachedPortId, Space)
  {
    var tokens := SplitCompressed(text, Space);
    SplitIsFree(text, Space);
    NormalizeMacMeaning(tokens[if |tokens| % 2 == 1 then 2 else 1]);
  }

  /** With one attached id missing neither is printed, so neither is read. */
  lemma UnattachedStaysUnattached(i: NodeInterface)
    requires !Attached(i) && ParseIface(Join(WordsOf(i))) == Some(i)
    ensures i.attachedChassisId == "" && i.attachedPortId == ""
  {
    ParsedIsPrintable(Join(WordsOf(i)), i);
    MacIsFree(i.portId);
    SplitJoin(WordsOf(i), Space);
  }
}
