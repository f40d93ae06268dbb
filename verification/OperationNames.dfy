/**
 Operation names: `operations/<node>:<uuid>`, or `operations/<uuid>` without a node.
 */
module OperationNames {
  const PREFIX := "operations/"

  /** The node prefix is the override if given, else the scheduler's own ID, else absent. */
  function OperationID(nodeID: string, nodeIDOverride: string, uuid: string): string {
    var prefix := if nodeIDOverride != "" then nodeIDOverride else nodeID;
    if prefix != "" then prefix + ":" + uuid else uuid
  }

  function OperationName(nodeID: string, nodeIDOverride: string, uuid: string): string {
    PREFIX + OperationID(nodeID, nodeIDOverride, uuid)
  }

  /** The text of a name. */
  lemma NamePrinted(nodeID: string, nodeIDOverride: string, uuid: string)
    ensures OperationName(nodeID, nodeIDOverride, uuid) ==
              if nodeIDOverride != "" then "operations/" + (nodeIDOverride + ":" + uuid)
              else if nodeID != "" then "operations/" + (nodeID + ":" + uuid)
              else "operations/" + uuid
  {
  }

  function Stripped(name: string): string {
    if |name| > 11 && name[..11] == PREFIX then name[11..] else name
  }

  /** Where a name splits: at its first colon, if any. */
  predicate Splits(body: string, nodeID: string, operationID: string) {
    if ':' in body
    then ':' !in nodeID && body == nodeID + ":" + operationID
    else nodeID == "" && operationID == body
  }

  method ParseOperationNodeID(operationName: string) returns (nodeID: string, operationID: string)
    ensures Splits(Stripped(operationName), nodeID, operationID)
  {
    var name := operationName;
    if |name| > 11 && name[..11] == PREFIX {
      name := name[11..];
    }
    for i := 0 to |name|
      invariant ':' !in name[..i]
    {
      if name[i] == ':' {
        assert name == name[..i] + ":" + name[i + 1..];
        return name[..i], name[i + 1..];
      }
    }
    assert name == name[..|name|];
    return "", name;
  }

  /** The split is unique. */
  lemma SplitsUnique(body: string, a: string, b: string, c: string, d: string)
    requires Splits(body, a, b) && Splits(body, c, d)
    ensures a == c && b == d
  {
    if ':' in body {
      assert body[|a|] == ':' && body[|c|] == ':';
      assert forall i :: 0 <= i < |a| ==> body[i] == a[i] && a[i] in a;
      assert forall i :: 0 <= i < |c| ==> body[i] == c[i] && c[i] in c;
      assert |a| == |c|;
      assert a == body[..|a|] == c;
      assert b == body[|a| + 1..] == d;
    }
  }

  /** A printed name parses back to its node ID and UUID exactly when the node ID contains no colon. Without a node ID
      the same holds of the UUID, which must not be empty either: the bare prefix is not stripped. */
  lemma NameRoundTrip(nodeID: string, uuid: string)
    ensures Splits(Stripped(OperationName(nodeID, "", uuid)), nodeID, uuid)
            <==> if nodeID == "" then uuid != "" && ':' !in uuid else ':' !in nodeID
  {
    var name := OperationName(nodeID, "", uuid);
    assert name[..11] == PREFIX && name[11..] == OperationID(nodeID, "", uuid);
    if nodeID != "" { assert (nodeID + ":" + uuid)[|nodeID|] == ':'; }
  }

  /** An operation enqueued with an override carries the override's node, whatever the scheduler's own ID. */
  lemma OverrideWins(nodeID: string, nodeIDOverride: string, uuid: string)
    requires nodeIDOverride != ""
    ensures Splits(Stripped(OperationName(nodeID, nodeIDOverride, uuid)), nodeIDOverride, uuid)
            <==> ':' !in nodeIDOverride
  {
    NameRoundTrip(nodeIDOverride, uuid);
  }

  /** A node ID with a colon sends the name to the node called after its first part. */
  lemma ColonMisroutes(first: string, rest: string, uuid: string)
    requires ':' !in first
    ensures Splits(Stripped(OperationName(first + ":" + rest, "", uuid)), first, rest + ":" + uuid)
  {
    var name := OperationName(first + ":" + rest, "", uuid);
    Regroup(first, rest, uuid);
    assert name[..11] == PREFIX && name[11..] == first + ":" + (rest + ":" + uuid);
    assert name[11..][|first|] == ':';
  }

  lemma Regroup(a: string, b: string, c: string)
    ensures a + ":" + b + ":" + c == a + ":" + (b + ":" + c)
  {
  }
}
