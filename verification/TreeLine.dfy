/** The two decoders of a `nix-store --query --tree` line (`template_graph/tree_walker.py`): one walks
    four-character segments of text, the other does arithmetic on byte counts. */
module TreeLine {
  import opened Wrappers
  import opened Sequences
  import Utf8

  type Bytes = seq<Utf8.Byte>

  datatype Node = Node(depth: int, hash: Bytes, name: string, backref: bool)

  const STORE := "/nix/store/"
  const BACKREF := " [...]"
  const BAR_SEGMENT := "\U{2502}   "
  const BLANK_SEGMENT := "    "
  const BRANCH_SEGMENT := "\U{251C}\U{2500}\U{2500}\U{2500}"
  const LAST_SEGMENT := "\U{2514}\U{2500}\U{2500}\U{2500}"

  predicate IsIndent(seg: string) {
    seg == BAR_SEGMENT || seg == BLANK_SEGMENT
  }

  predicate IsConnector(seg: string) {
    seg == BRANCH_SEGMENT || seg == LAST_SEGMENT
  }

  function Min(a: nat, b: nat): nat {
    if a <= b then a else b
  }

  /** `s[lo:hi]`, which never fails. */
  function Slice<T>(s: seq<T>, lo: nat, hi: nat): seq<T> {
    if lo >= Min(hi, |s|) then [] else s[lo..Min(hi, |s|)]
  }

  // -------------------------------------------------------------------------------- the text decoder

  /** How many segments the indentation has. */
  function Depth(line: string): nat {
    if |line| < 4 then 0
    else if IsIndent(line[..4]) then 1 + Depth(line[4..])
    else if IsConnector(line[..4]) then 1
    else 0
  }

  lemma {:induction false} DepthFits(line: string)
    ensures 4 * Depth(line) <= |line|
  {
    if |line| >= 4 && IsIndent(line[..4]) { DepthFits(line[4..]); }
  }

  /** The part after the indentation; a hash that is not ASCII makes `encode` raise. */
  function ParseRest(depth: nat, line: string): Outcome<Node> {
    var backref := EndsWith(line, BACKREF);
    var rest := if backref then line[..|line| - 6] else line;
    if STORE <= rest then
      if Utf8.IsAscii(Slice(rest, 11, 43)) then Ok(Node(depth, Utf8.Encode(Slice(rest, 11, 43)), Slice(rest, 44, |rest|), backref))
      else Raised
    else Ok(Node(depth, [], rest, backref))
  }

  function ParseText(line: string): Outcome<Node> {
    DepthFits(line);
    ParseRest(Depth(line), line[4 * Depth(line)..])
  }

  /** `_parse_line`. */
  method ParseLine(line: string) returns (r: Outcome<Node>)
    ensures r == ParseText(line)
  {
    hide ParseRest, IsIndent, IsConnector;
    var i, depth := 0, 0;
    assert line[0..] == line;
    DepthFits(line);
    while i + 4 <= |line|
      invariant i == 4 * depth <= |line|
      invariant depth + Depth(line[i..]) == Depth(line)
    {
      var segment := line[i..i + 4];
      assert line[i..][..4] == segment && line[i..][4..] == line[i + 4..];
      if IsIndent(segment) {
        depth := depth + 1;
        i := i + 4;
        continue;
      }
      if IsConnector(segment) {
        depth := depth + 1;
        i := i + 4;
        return ParseRest(depth, line[i..]);
      }
      return ParseRest(depth, line[i..]);
    }
    r := ParseRest(depth, line[i..]);
  }

  // -------------------------------------------------------------------------------- the byte decoder

  const STORE_BYTES: Bytes := [0x2F, 0x6E, 0x69, 0x78, 0x2F, 0x73, 0x74, 0x6F, 0x72, 0x65, 0x2F]
  const BACKREF_BYTES: Bytes := [0x20, 0x5B, 0x2E, 0x2E, 0x2E, 0x5D]

  /** `line.find(pattern, 0, end)`. */
  function Find(line: Bytes, pattern: Bytes, start: nat, end: nat): (r: Option<nat>)
    requires end <= |line|
    ensures r.Some? ==> start <= r.value && r.value + |pattern| <= end
    decreases |line| - start
  {
    if start + |pattern| > end then None
    else if line[start..start + |pattern|] == pattern then Some(start)
    else if start == |line| then None
    else Find(line, pattern, start + 1, end)
  }

  /** `line.count(b"\xe2", 0, n)`. */
  function CountE2(line: Bytes, n: nat): nat
    requires n <= |line|
  {
    if n == 0 then 0 else CountE2(line, n - 1) + (if line[n - 1] == 0xE2 then 1 else 0)
  }

  function DecodeAscii(bs: Bytes): Option<string> {
    if forall i :: 0 <= i < |bs| ==> bs[i] < 0x80 then Some(seq(|bs|, i requires 0 <= i < |bs| => bs[i] as char)) else None
  }

  /** `parse_line_bytes`. */
  function ParseLineBytes(line: Bytes): Outcome<Node> {
    var backref := EndsWith(line, BACKREF_BYTES);
    var end := if backref then |line| - 6 else |line|;
    match Find(line, STORE_BYTES, 0, end)
    case None => Raised
    case Some(offset) =>
      var e2 := CountE2(line, offset);
      if (offset - 2 * e2) % 4 != 0 then Raised
      else if offset > 0 && e2 < 4 then Raised
      else
        var h := offset + 11;
        match DecodeAscii(Slice(line, h + 33, end))
        case None => Raised
        case Some(name) => Ok(Node((offset - 2 * e2) / 4, Slice(line, h, h + 32), name, backref))
  }

  /** One line of the stream: a trailing newline goes, an empty chunk raises `IndexError`. */
  function ParseRaw(raw: Bytes): Outcome<Node> {
    if raw == [] then Raised
    else ParseLineBytes(if raw[|raw| - 1] == 0x0A then raw[..|raw| - 1] else raw)
  }

  /** What a stream yields, and whether it ends by itself or in a raise. */
  function Decoded(stream: seq<Bytes>): (seq<Node>, Outcome<()>) {
    if stream == [] then ([], Ok(()))
    else
      match ParseRaw(stream[0])
      case Raised => ([], Raised)
      case Ok(node) => var rest := Decoded(stream[1..]); ([node] + rest.0, rest.1)
  }

  lemma {:induction false} DecodedAfter(stream: seq<Bytes>, nodes: seq<Node>)
    requires |nodes| <= |stream| && forall k :: 0 <= k < |nodes| ==> ParseRaw(stream[k]) == Ok(nodes[k])
    ensures var rest := Decoded(stream[|nodes|..]);
      Decoded(stream).0 == nodes + rest.0 && Decoded(stream).1 == rest.1
  {
    hide ParseRaw;
    if nodes != [] {
      DecodedAfter(stream[1..], nodes[1..]);
      assert stream[1..][|nodes| - 1..] == stream[|nodes|..];
    } else {
      assert stream[0..] == stream;
    }
  }

  /** `drv_tree_stream`: what is yielded before the stream ends or a line raises. */
  method DrvTreeStream(stream: seq<Bytes>) returns (nodes: seq<Node>, r: Outcome<()>)
    ensures nodes == Decoded(stream).0 && r == Decoded(stream).1
    ensures |nodes| <= |stream| && forall k :: 0 <= k < |nodes| ==> ParseRaw(stream[k]) == Ok(nodes[k])
    ensures r.Ok? ==> |nodes| == |stream|
    ensures r.Raised? ==> |nodes| < |stream| && ParseRaw(stream[|nodes|]) == Raised
  {
    hide ParseLineBytes, Decoded;
    nodes := [];
    for n := 0 to |stream|
      invariant |nodes| == n && forall k :: 0 <= k < n ==> ParseRaw(stream[k]) == Ok(nodes[k])
    {
      var raw := stream[n];
      if raw == [] {
        DecodedRaise(stream, nodes);
        return nodes, Raised;
      }
      if raw[|raw| - 1] == 0x0A {
        raw := raw[..|raw| - 1];
      }
      var node := ParseLineBytes(raw);
      if node.Raised? {
        DecodedRaise(stream, nodes);
        return nodes, Raised;
      }
      nodes := nodes + [node.value];
    }
    DecodedAll(stream, nodes);
    return nodes, Ok(());
  }

  lemma DecodedRaise(stream: seq<Bytes>, nodes: seq<Node>)
    requires |nodes| < |stream| && forall k :: 0 <= k < |nodes| ==> ParseRaw(stream[k]) == Ok(nodes[k])
    requires ParseRaw(stream[|nodes|]) == Raised
    ensures Decoded(stream).0 == nodes && Decoded(stream).1 == Raised
  {
    hide ParseRaw;
    DecodedAfter(stream, nodes);
  }

  lemma DecodedAll(stream: seq<Bytes>, nodes: seq<Node>)
    requires |nodes| == |stream| && forall k :: 0 <= k < |nodes| ==> ParseRaw(stream[k]) == Ok(nodes[k])
    ensures Decoded(stream).0 == nodes && Decoded(stream).1 == Ok(())
  {
    hide ParseRaw;
    DecodedAfter(stream, nodes);
  }

  // --------------------------------------------------------------------------------------- rendering

  /** A line as Nix prints it: the root bare, every other node with bars or blanks for its ancestors
      and one connector. */
  datatype Rendered = Rendered(ancestors: seq<bool>, connector: Option<bool>, hash: string, name: string, backref: bool)
  {
    predicate Valid() {
      && (connector.None? ==> ancestors == [])
      && |hash| == 32 && Utf8.IsAscii(hash) && Utf8.IsAscii(name)
    }

    function DepthOf(): nat {
      |ancestors| + if connector.Some? then 1 else 0
    }
  }

  function Indents(ancestors: seq<bool>): string {
    if ancestors == [] then ""
    else (if ancestors[0] then BAR_SEGMENT else BLANK_SEGMENT) + Indents(ancestors[1..])
  }

  function Head(r: Rendered): string {
    Indents(r.ancestors)
    + (match r.connector case None => "" case Some(more) => if more then BRANCH_SEGMENT else LAST_SEGMENT)
  }

  function Body(r: Rendered): string {
    STORE + r.hash + "-" + r.name + (if r.backref then BACKREF else "")
  }

  function Text(r: Rendered): string {
    Head(r) + Body(r)
  }

  /** What a decoder makes of the line: the fields, unless the name itself ends in the marker. */
  function Expected(r: Rendered): Node {
    if r.backref || !EndsWith(r.name, BACKREF) then Node(r.DepthOf(), Utf8.Encode(r.hash), r.name, r.backref)
    else Node(r.DepthOf(), Utf8.Encode(r.hash), r.name[..|r.name| - 6], true)
  }
}
