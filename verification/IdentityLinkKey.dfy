/** The length-prefixed key of a complete source identity, and the decoder that shows it loses nothing. */
module IdentityLinkKey {
  import opened Common
  import opened Text

  datatype SourceIdentity = SourceIdentity(
    system: string,
    instance: string,
    entityType: string,
    entityId: string,
    policyVersion: string)
  {
    function Parts(): (parts: seq<string>)
      ensures |parts| == 5
    {
      [system, instance, entityType, entityId, policyVersion]
    }

    predicate HasBlank() {
      exists i :: 0 <= i < 5 && IsBlank(Parts()[i])
    }
  }

  const PREFIX: string := "ilk1:"

  function EncodePart(part: string): string {
    Decimal(|part|) + ":" + part
  }

  function EncodeParts(parts: seq<string>): string {
    if parts == [] then "" else EncodePart(parts[0]) + EncodeParts(parts[1..])
  }

  /** `None` where the source raises for a blank provenance field. */
  function LinkKey(id: SourceIdentity): Option<string> {
    if id.HasBlank() then None else Some(PREFIX + EncodeParts(id.Parts()))
  }

  predicate AnyBlank(id: SourceIdentity) {
    AllSpace(id.system) || AllSpace(id.instance) || AllSpace(id.entityType) || AllSpace(id.entityId)
    || AllSpace(id.policyVersion)
  }

  /** A key exists exactly without a blank field. */
  lemma KeyExistsExactly(id: SourceIdentity)
    ensures LinkKey(id).Some? <==> !AnyBlank(id)
  {
    BlankIsSpace(id.system);
    BlankIsSpace(id.instance);
    BlankIsSpace(id.entityType);
    BlankIsSpace(id.entityId);
    BlankIsSpace(id.policyVersion);
    var parts := id.Parts();
    assert parts[0] == id.system && parts[1] == id.instance && parts[2] == id.entityType;
    assert parts[3] == id.entityId && parts[4] == id.policyVersion;
  }

  /** The key writes the five fields behind their lengths, in order. */
  lemma KeyIsWritten(id: SourceIdentity)
    ensures LinkKey(id).Some? ==>
              LinkKey(id).value == "ilk1:" + (
                (Decimal(|id.system|) + ":" + id.system)
                + (Decimal(|id.instance|) + ":" + id.instance)
                + (Decimal(|id.entityType|) + ":" + id.entityType)
                + (Decimal(|id.entityId|) + ":" + id.entityId)
                + (Decimal(|id.policyVersion|) + ":" + id.policyVersion))
  {
    FivePartsAreWritten(id);
  }

  lemma FivePartsAreWritten(id: SourceIdentity)
    ensures EncodeParts(id.Parts()) ==
            EncodePart(id.system) + EncodePart(id.instance) + EncodePart(id.entityType) + EncodePart(id.entityId)
            + EncodePart(id.policyVersion)
  {
    var a, b, c, d, e := id.system, id.instance, id.entityType, id.entityId, id.policyVersion;
    assert id.Parts() == [a] + [b, c, d, e] && [b, c, d, e] == [b] + [c, d, e];
    assert EncodeParts([e]) == EncodePart(e) + EncodeParts([]);
    assert [d, e][1..] == [e] && [c, d, e][1..] == [d, e] && [b, c, d, e][1..] == [c, d, e];
    assert id.Parts()[1..] == [b, c, d, e];
    assert EncodeParts([d, e]) == EncodePart(d) + EncodePart(e);
    assert EncodeParts([c, d, e]) == EncodePart(c) + (EncodePart(d) + EncodePart(e));
    assert EncodeParts([b, c, d, e]) == EncodePart(b) + (EncodePart(c) + (EncodePart(d) + EncodePart(e)));
  }

  // ----- The decoder -----

  function ColonAt(s: string): (i: nat)
    ensures i <= |s|
  {
    if s == [] || s[0] == ':' then 0 else 1 + ColonAt(s[1..])
  }

  /** A canonical length, a colon, that many characters. */
  function DecodePart(s: string): Option<(string, string)> {
    var i := ColonAt(s);
    var length := ParseDecimal(s[..i]);
    if i == |s| || length.None? || Decimal(length.value) != s[..i] || i + 1 + length.value > |s| then None
    else Some((s[i + 1..i + 1 + length.value], s[i + 1 + length.value..]))
  }

  function DecodeParts(s: string, n: nat): Option<(seq<string>, string)> {
    if n == 0 then Some(([], s))
    else
      match DecodePart(s)
      case None => None
      case Some((part, rest)) =>
        match DecodeParts(rest, n - 1)
        case None => None
        case Some((parts, tail)) => Some(([part] + parts, tail))
  }

  function DecodeKey(s: string): Option<SourceIdentity> {
    if !(PREFIX <= s) then None
    else
      match DecodeParts(s[|PREFIX|..], 5)
      case None => None
      case Some((parts, tail)) =>
        if |parts| != 5 || tail != "" then None
        else
          var id := SourceIdentity(parts[0], parts[1], parts[2], parts[3], parts[4]);
          if id.HasBlank() then None else Some(id)
  }

  // ----- Round trips -----

  lemma {:induction false} ColonAfterDigits(digits: string, rest: string)
    requires AllDigits(digits)
    ensures ColonAt(digits + ":" + rest) == |digits|
  {
    if digits != [] {
      assert (digits + ":" + rest)[1..] == digits[1..] + ":" + rest;
      assert IsDigit(digits[0]);
      ColonAfterDigits(digits[1..], rest);
    }
  }

  lemma DecodeUndoesEncodePart(part: string, tail: string)
    ensures DecodePart(EncodePart(part) + tail) == Some((part, tail))
  {
    var digits := Decimal(|part|);
    var s := EncodePart(part) + tail;
    assert s == digits + ":" + (part + tail);
    ColonAfterDigits(digits, part + tail);
    ParseUndoesDecimal(|part|);
    var i := |digits|;
    assert s[..i] == digits;
    assert s[i + 1..] == part + tail;
    assert s[i + 1..i + 1 + |part|] == part;
    assert s[i + 1 + |part|..] == tail;
  }

  lemma {:induction false} DecodeUndoesEncodeParts(parts: seq<string>, tail: string)
    ensures DecodeParts(EncodeParts(parts) + tail, |parts|) == Some((parts, tail))
  {
    if parts == [] {
      assert EncodeParts(parts) + tail == tail;
    } else {
      var rest := EncodeParts(parts[1..]) + tail;
      assert EncodeParts(parts) + tail == EncodePart(parts[0]) + rest;
      DecodeUndoesEncodePart(parts[0], rest);
      DecodeUndoesEncodeParts(parts[1..], tail);
      assert [parts[0]] + parts[1..] == parts;
    }
  }

  lemma {:induction false} DecodedPartsEncode(s: string, n: nat)
    requires DecodeParts(s, n).Some?
    ensures |DecodeParts(s, n).value.0| == n
    ensures s == EncodeParts(DecodeParts(s, n).value.0) + DecodeParts(s, n).value.1
  {
    if n > 0 {
      var (part, rest) := DecodePart(s).value;
      DecodedPartEncodes(s);
      DecodedPartsEncode(rest, n - 1);
      var (parts, tail) := DecodeParts(rest, n - 1).value;
      assert ([part] + parts)[1..] == parts;
      assert EncodePart(part) + (EncodeParts(parts) + tail) == EncodePart(part) + EncodeParts(parts) + tail;
    }
  }

  lemma {:induction false} FirstColon(s: string)
    ensures ColonAt(s) < |s| ==> s[ColonAt(s)] == ':'
  {
    if s != [] && s[0] != ':' {
      FirstColon(s[1..]);
    }
  }

  lemma DecodedPartEncodes(s: string)
    requires DecodePart(s).Some?
    ensures s == EncodePart(DecodePart(s).value.0) + DecodePart(s).value.1
  {
    var i := ColonAt(s);
    FirstColon(s);
    var (part, rest) := DecodePart(s).value;
    assert s == s[..i] + [s[i]] + (part + rest);
  }

  lemma DecodeUndoesKey(id: SourceIdentity)
    requires LinkKey(id).Some?
    ensures DecodeKey(LinkKey(id).value) == Some(id)
  {
    var s := LinkKey(id).value;
    var parts := id.Parts();
    assert s[|PREFIX|..] == EncodeParts(parts) + "";
    DecodeUndoesEncodeParts(parts, "");
    assert DecodeParts(s[|PREFIX|..], 5) == Some((parts, ""));
    assert SourceIdentity(parts[0], parts[1], parts[2], parts[3], parts[4]) == id;
  }

  lemma KeyUndoesDecode(s: string)
    requires DecodeKey(s).Some?
    ensures LinkKey(DecodeKey(s).value) == Some(s)
  {
    var id := DecodeKey(s).value;
    DecodedPartsEncode(s[|PREFIX|..], 5);
    var parts := DecodeParts(s[|PREFIX|..], 5).value.0;
    assert parts == id.Parts();
    assert s == PREFIX + s[|PREFIX|..];
    assert EncodeParts(parts) + "" == EncodeParts(parts);
  }

  /** The decoder undoes the key, and accepts nothing but keys. */
  lemma DecodeIsTheInverse(id: SourceIdentity, s: string)
    ensures DecodeKey(s) == Some(id) <==> LinkKey(id) == Some(s)
  {
    if LinkKey(id) == Some(s) {
      DecodeUndoesKey(id);
    }
    if DecodeKey(s) == Some(id) {
      KeyUndoesDecode(s);
    }
  }

  /** Different identities have different keys, whatever characters their parts contain. */
  lemma KeyIsInjective(a: SourceIdentity, b: SourceIdentity)
    requires LinkKey(a).Some? && LinkKey(a) == LinkKey(b)
    ensures a == b
  {
    DecodeIsTheInverse(a, LinkKey(a).value);
    DecodeIsTheInverse(b, LinkKey(a).value);
  }
}
