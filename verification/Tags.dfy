/** The comment tags that tie a DNS record to a server or to a tenant zone and
    edge (reconcile.go, zonesync.go): printers, parsers and their laws. */
module Tags {
  import opened Text

  const COMMENT_PREFIX := "brisk:"
  const SERVER_PREFIX := COMMENT_PREFIX + "server:"
  const ZONE_PREFIX := COMMENT_PREFIX + "zone:"
  const WILDCARD_PREFIX := COMMENT_PREFIX + "wildcard:"

  function ServerTag(edgeID: string): string {
    SERVER_PREFIX + edgeID
  }

  /** The edge of a server tag; "" for any other comment. */
  function EdgeIDFromComment(comment: string): string {
    if HasPrefix(comment, SERVER_PREFIX) then comment[|SERVER_PREFIX|..] else ""
  }

  function ZoneTag(zoneID: int): string {
    ZONE_PREFIX + FormatInt(zoneID)
  }

  function ZoneEdgeTag(zoneID: int, edgeID: string): string {
    ZoneTag(zoneID) + ":" + edgeID
  }

  function EdgeIDFromZoneComment(comment: string, zoneID: int): Option<string> {
    var tag := ZoneTag(zoneID);
    if comment == tag then Some("")
    else if HasPrefix(comment, tag + ":") then Some(comment[|tag| + 1..])
    else None
  }

  function ZoneIDFromComment(comment: string): Option<int> {
    if !HasPrefix(comment, ZONE_PREFIX) then None
    else ParseInt64(BeforeColon(comment[|ZONE_PREFIX|..]))
  }

  /** The comments as they stand in Bunny. */
  lemma TagsAsWritten(edgeID: string)
    ensures ServerTag(edgeID) == "brisk:server:" + edgeID
    ensures ZoneTag(12) == "brisk:zone:12" && ZoneEdgeTag(12, edgeID) == "brisk:zone:12:" + edgeID && ZoneTag(-5) == "brisk:zone:-5"
    ensures WILDCARD_PREFIX + edgeID == "brisk:wildcard:" + edgeID
  {
    assert FormatInt(12) == "12" && FormatInt(-5) == "-5";
    assert SERVER_PREFIX == "brisk:server:" && ZONE_PREFIX == "brisk:zone:" && WILDCARD_PREFIX == "brisk:wildcard:";
    assert "brisk:zone:12" + ":" == "brisk:zone:12:";
  }

  lemma ServerTagRoundTrip(edgeID: string)
    ensures EdgeIDFromComment(ServerTag(edgeID)) == edgeID
  {
    assert ServerTag(edgeID)[|SERVER_PREFIX|..] == edgeID;
  }

  /** A comment is read as the tag of edge e only if it is the tag of e. */
  lemma ServerTagInjective(comment: string, edgeID: string)
    requires EdgeIDFromComment(comment) == edgeID && edgeID != ""
    ensures comment == ServerTag(edgeID)
  {
    assert comment == comment[..|SERVER_PREFIX|] + comment[|SERVER_PREFIX|..];
  }

  /** The sweep recovers the zone of every tag, bare or with an edge, whatever
      characters the edge id holds. */
  lemma ZoneIDRoundTrip(zoneID: int, edgeID: string)
    requires IsInt64(zoneID)
    ensures ZoneIDFromComment(ZoneTag(zoneID)) == Some(zoneID)
    ensures ZoneIDFromComment(ZoneEdgeTag(zoneID, edgeID)) == Some(zoneID)
  {
    hide FormatInt, ParseInt64, BeforeColon;
    ParseFormat(zoneID);
    FormatHasNoColon(zoneID);
    BeforeColonOf(FormatInt(zoneID), edgeID);
    assert ZoneTag(zoneID)[|ZONE_PREFIX|..] == FormatInt(zoneID);
    assert ZoneEdgeTag(zoneID, edgeID)[|ZONE_PREFIX|..] == FormatInt(zoneID) + ":" + edgeID;
  }

  /** Whatever zone z reads as its own carries zone id z for the sweep. */
  lemma ZoneReadersAgree(comment: string, zoneID: int)
    requires IsInt64(zoneID)
    requires EdgeIDFromZoneComment(comment, zoneID).Some?
    ensures ZoneIDFromComment(comment) == Some(zoneID)
    ensures EdgeIDFromComment(comment) == ""
  {
    var tag := ZoneTag(zoneID);
    if comment != tag {
      assert comment == ZoneEdgeTag(zoneID, comment[|tag| + 1..]);
      ZoneIDRoundTrip(zoneID, comment[|tag| + 1..]);
    } else {
      ZoneIDRoundTrip(zoneID, "");
    }
    ZoneTagIsNotServerTag(comment);
  }

  lemma ZoneTagIsNotServerTag(comment: string)
    requires HasPrefix(comment, ZONE_PREFIX)
    ensures !HasPrefix(comment, SERVER_PREFIX)
  {
    assert comment[6] == ZONE_PREFIX[6] == 'z';
    assert SERVER_PREFIX[6] == 's';
  }

  /** A zone's reader accepts another zone's tag exactly when the ids are equal,
      and then returns the edge: zone 1 never claims a record of zone 12. */
  lemma ZoneEdgeTagRead(zoneID: int, other: int, edgeID: string)
    requires IsInt64(zoneID) && IsInt64(other)
    ensures EdgeIDFromZoneComment(ZoneEdgeTag(zoneID, edgeID), other)
         == if zoneID == other then Some(edgeID) else None
  {
    var comment := ZoneEdgeTag(zoneID, edgeID);
    if zoneID == other {
      assert |comment| > |ZoneTag(zoneID)|;
      assert comment[..|ZoneTag(zoneID)| + 1] == ZoneTag(zoneID) + ":";
      assert comment[|ZoneTag(zoneID)| + 1..] == edgeID;
    } else if EdgeIDFromZoneComment(comment, other).Some? {
      ZoneReadersAgree(comment, other);
      ZoneIDRoundTrip(zoneID, edgeID);
      assert false;
    }
  }

  lemma ServerTagIsNotZoneTag(edgeID: string)
    ensures ZoneIDFromComment(ServerTag(edgeID)) == None
    ensures forall z :: EdgeIDFromZoneComment(ServerTag(edgeID), z) == None
  {
    assert ServerTag(edgeID)[6] == SERVER_PREFIX[6] == 's';
    assert ZONE_PREFIX[6] == 'z';
    forall z ensures EdgeIDFromZoneComment(ServerTag(edgeID), z) == None {
      assert ZoneTag(z)[6] == ZONE_PREFIX[6];
    }
  }

  lemma WildcardTagIsNeither(name: string)
    ensures EdgeIDFromComment(WILDCARD_PREFIX + name) == ""
    ensures ZoneIDFromComment(WILDCARD_PREFIX + name) == None
  {
    assert (WILDCARD_PREFIX + name)[6] == WILDCARD_PREFIX[6] == 'w';
    assert SERVER_PREFIX[6] == 's' && ZONE_PREFIX[6] == 'z';
  }
}
