/** Length-prefixed keys: the tuple that identifies a record, rendered as one string and read back. */
module PositionKey {
  import opened Options
  import opened Decimal

  /** One part: its length, a colon, and the part itself. */
  function RenderPart(part: string): string {
    Print(|part|) + ":" + part
  }

  /** The rendered parts joined by '|'. */
  function Render(parts: seq<string>): string
    requires parts != []
  {
    if |parts| == 1 then RenderPart(parts[0]) else RenderPart(parts[0]) + "|" + Render(parts[1..])
  }

  /** Reads one part off the front: its length first, then that many characters, whatever they are. */
  function DecodePart(s: string): Option<(string, string)> {
    var (length, rest) := Read(s, 0);
    if rest == [] || rest[0] != ':' || |rest| - 1 < length then None else Some((rest[1..length + 1], rest[length + 1..]))
  }

  function Decode(s: string): Option<seq<string>>
    decreases |s|
  {
    match DecodePart(s)
    case None => None
    case Some((part, rest)) =>
      if rest == [] then Some([part])
      else if rest[0] != '|' || |rest| > |s| then None
      else match Decode(rest[1..])
        case None => None
        case Some(parts) => Some([part] + parts)
  }

  lemma DecodeRenderedPart(part: string, rest: string)
    ensures DecodePart(RenderPart(part) + rest) == Some((part, rest))
  {
    ReadPrinted(|part|, ":" + part + rest);
    assert RenderPart(part) + rest == Print(|part|) + (":" + part + rest);
    var tail := ":" + part + rest;
    assert Read(tail, |part|) == (|part|, tail);
    assert tail[1..|part| + 1] == part;
    assert tail[|part| + 1..] == rest;
  }

  /** The decoder recovers every part of every key, whatever digits and separators the parts contain. */
  lemma {:induction false} DecodeRendered(parts: seq<string>)
    requires parts != []
    ensures Decode(Render(parts)) == Some(parts)
  {
    if |parts| == 1 {
      DecodeRenderedPart(parts[0], "");
      assert RenderPart(parts[0]) + "" == RenderPart(parts[0]);
      assert [parts[0]] == parts;
    } else {
      var rest := "|" + Render(parts[1..]);
      DecodeRenderedPart(parts[0], rest);
      DecodeRendered(parts[1..]);
      assert Render(parts) == RenderPart(parts[0]) + rest;
      assert rest[1..] == Render(parts[1..]);
      assert [parts[0]] + parts[1..] == parts;
    }
  }

  datatype Position = Position(tenantId: string, actorRef: string, resourceKind: string, resourceId: string, governedRight: string)

  function KeyOfPosition(p: Position): string {
    Render([p.tenantId, p.actorRef, p.resourceKind, p.resourceId, p.governedRight])
  }

  /** A key reads, part by part, as tenant, actor, kind and id of the resource, and right. */
  lemma PositionReadsBack(p: Position)
    ensures Decode(KeyOfPosition(p)) == Some([p.tenantId, p.actorRef, p.resourceKind, p.resourceId, p.governedRight])
  {
    DecodeRendered([p.tenantId, p.actorRef, p.resourceKind, p.resourceId, p.governedRight]);
  }

  /** No two keys render alike. */
  lemma PositionKeysAreInjective(p: Position, q: Position)
    requires KeyOfPosition(p) == KeyOfPosition(q)
    ensures p == q
  {
    var x := [p.tenantId, p.actorRef, p.resourceKind, p.resourceId, p.governedRight];
    var y := [q.tenantId, q.actorRef, q.resourceKind, q.resourceId, q.governedRight];
    DecodeRendered(x);
    DecodeRendered(y);
    assert x[0] == y[0] && x[1] == y[1] && x[2] == y[2] && x[3] == y[3] && x[4] == y[4];
  }
}
