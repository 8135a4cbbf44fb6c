/** Both line decoders return the fields of every rendered line, and agree on it; the stream decoder
    returns those of a whole tree. For any other line: when the byte decoder raises, and what the text
    decoder makes of an indentation without a store path behind it (`tree_walker.py`). */
module TreeLineProofs {
  import opened Wrappers
  import opened Sequences
  import opened TreeLine
  import Utf8

  // ---------------------------------------------------------------------------------------- text

  function Segment(bar: bool): string {
    if bar then BAR_SEGMENT else BLANK_SEGMENT
  }

  function Connector(more: bool): string {
    if more then BRANCH_SEGMENT else LAST_SEGMENT
  }

  lemma SegmentsDiffer(bar: bool, more: bool)
    ensures |Segment(bar)| == 4 && IsIndent(Segment(bar))
    ensures |Connector(more)| == 4 && IsConnector(Connector(more)) && !IsIndent(Connector(more))
  {
    assert Connector(more)[1] == '\U{2500}' && BAR_SEGMENT[1] == ' ' && BLANK_SEGMENT[1] == ' ';
  }

  lemma DepthOfSegment(bar: bool, t: string)
    ensures Depth(Segment(bar) + t) == 1 + Depth(t)
  {
    hide BAR_SEGMENT, BLANK_SEGMENT, Segment, IsIndent;
    SegmentsDiffer(bar, true);
    assert (Segment(bar) + t)[..4] == Segment(bar) && (Segment(bar) + t)[4..] == t;
  }

  lemma IndentsCons(a: seq<bool>)
    requires a != []
    ensures Indents(a) == Segment(a[0]) + Indents(a[1..]) && |Segment(a[0])| == 4
  {
  }

  lemma {:induction false} DepthOfIndents(a: seq<bool>, t: string)
    ensures |Indents(a)| == 4 * |a| && Depth(Indents(a) + t) == |a| + Depth(t)
  {
    hide Depth, Segment;
    if a == [] {
      assert Indents(a) + t == t;
    } else {
      hide Indents;
      IndentsCons(a);
      DepthOfIndents(a[1..], t);
      DepthOfSegment(a[0], Indents(a[1..]) + t);
      assert Indents(a) + t == Segment(a[0]) + (Indents(a[1..]) + t);
    }
  }

  lemma DepthOfConnector(more: bool, t: string)
    ensures Depth(Connector(more) + t) == 1
  {
    SegmentsDiffer(true, more);
    assert (Connector(more) + t)[..4] == Connector(more);
  }

  lemma DepthOfStore(t: string)
    ensures Depth(STORE + t) == 0
  {
    var line := STORE + t;
    assert line[..4] == STORE[..4];
    assert STORE[..4][0] == '/' && BAR_SEGMENT[0] == '\U{2502}' && BLANK_SEGMENT[0] == ' '
      && BRANCH_SEGMENT[0] == '\U{251C}' && LAST_SEGMENT[0] == '\U{2514}';
  }

  lemma DepthOfText(r: Rendered)
    requires r.Valid()
    ensures |Head(r)| == 4 * r.DepthOf() && Depth(Text(r)) == r.DepthOf()
  {
    hide Depth, Indents, STORE, BACKREF, BAR_SEGMENT, BLANK_SEGMENT, BRANCH_SEGMENT, LAST_SEGMENT, IsIndent,
        IsConnector;
    var tail := r.hash + "-" + r.name + (if r.backref then BACKREF else "");
    assert Body(r) == STORE + tail;
    DepthOfStore(tail);
    match r.connector
    case None =>
      DepthOfIndents(r.ancestors, Body(r));
      assert Head(r) == Indents(r.ancestors);
    case Some(more) =>
      SegmentsDiffer(true, more);
      DepthOfConnector(more, Body(r));
      DepthOfIndents(r.ancestors, Connector(more) + Body(r));
      assert Head(r) == Indents(r.ancestors) + Connector(more);
      assert Text(r) == Indents(r.ancestors) + (Connector(more) + Body(r));
  }

  /** The marker cannot begin before the dash in front of the name. */
  lemma MarkerInName(front: string, name: string)
    ensures EndsWith(front + "-" + name, BACKREF) <==> EndsWith(name, BACKREF)
  {
    var s := front + "-" + name;
    if |name| < 6 && |s| >= 6 {
      var k := 5 - |name|;
      assert s[|s| - 6..][k] == '-';
      assert forall j :: 0 <= j < 6 ==> BACKREF[j] != '-';
    } else if |name| >= 6 {
      assert s[|s| - 6..] == name[|name| - 6..];
    }
  }

  /** The body with the marker off: what is left of the name. */
  function Bare(r: Rendered): string {
    if r.backref || !EndsWith(r.name, BACKREF) then r.name else r.name[..|r.name| - 6]
  }

  lemma StripMarker(r: Rendered)
    ensures EndsWith(Body(r), BACKREF) <==> r.backref || EndsWith(r.name, BACKREF)
    ensures var b := Body(r);
      (if EndsWith(b, BACKREF) then b[..|b| - 6] else b) == STORE + r.hash + "-" + Bare(r)
  {
    hide EndsWith, STORE, BACKREF;
    var plain := STORE + r.hash + "-" + r.name;
    MarkerInName(STORE + r.hash, r.name);
    if r.backref {
      assert Body(r) == plain + BACKREF;
      Marked(plain);
    } else {
      assert Body(r) == plain + "" == plain;
      if EndsWith(r.name, BACKREF) {
        Unmarked(r.name);
        assert plain == (STORE + r.hash + "-" + Bare(r)) + BACKREF;
        Marked(STORE + r.hash + "-" + Bare(r));
      }
    }
  }

  lemma Marked(s: string)
    ensures EndsWith(s + BACKREF, BACKREF) && (s + BACKREF)[..|s + BACKREF| - 6] == s
  {
  }

  lemma Unmarked(name: string)
    requires EndsWith(name, BACKREF)
    ensures |name| >= 6 && name == name[..|name| - 6] + BACKREF
  {
  }

  lemma Fields(hash: string, name: string)
    requires |hash| == 32
    ensures var p := STORE + hash + "-" + name;
      STORE <= p && Slice(p, 11, 43) == hash && Slice(p, 44, |p|) == name
  {
    var p := STORE + hash + "-" + name;
    assert p[..11] == STORE;
    assert p[11..43] == hash;
    if name != "" { assert p[44..] == name; }
  }

  /** The segment loop, on every rendered line. */
  lemma TextDecodes(r: Rendered)
    requires r.Valid()
    ensures ParseText(Text(r)) == Ok(Expected(r))
  {
    hide Depth, Indents, Slice;
    DepthOfText(r);
    var d := r.DepthOf();
    assert Text(r)[4 * d..] == Body(r);
    StripMarker(r);
    Fields(r.hash, Bare(r));
    assert ParseText(Text(r)) == ParseRest(d, Body(r));
  }

  // --------------------------------------------------------------------------------------- bytes

  /** What a run of indentation looks like in bytes: `e2` lead bytes, no slash. */
  predicate Indentation(bs: Bytes, chars: nat, e2: nat) {
    |bs| == chars + 2 * e2 && CountE2(bs, |bs|) == e2 && forall i :: 0 <= i < |bs| ==> bs[i] != 0x2F
  }

  lemma {:induction false} CountE2Concat(a: Bytes, b: Bytes, n: nat)
    requires n <= |a| + |b|
    ensures CountE2(a + b, n) == if n <= |a| then CountE2(a, n) else CountE2(a, |a|) + CountE2(b, n - |a|)
  {
    if n > 0 { CountE2Concat(a, b, n - 1); }
  }

  lemma IndentationConcat(a: Bytes, b: Bytes, m: nat, n: nat, d: nat, e: nat)
    requires Indentation(a, m, d) && Indentation(b, n, e)
    ensures Indentation(a + b, m + n, d + e)
  {
    hide CountE2;
    CountE2Concat(a, b, |a| + |b|);
    CountNothing(b);
  }

  lemma CountNothing(b: Bytes)
    ensures CountE2(b, 0) == 0
  {
  }

  lemma CharBytes(c: char)
    requires c in "\U{2502}\U{251C}\U{2514}\U{2500}"
    ensures |Utf8.EncodeChar(c)| == 3 && Utf8.EncodeChar(c)[0] == 0xE2
    ensures forall i :: 1 <= i < 3 ==> 0x80 <= Utf8.EncodeChar(c)[i] < 0xC0
  {
  }

  lemma CharIndentation(c: char)
    requires c in "\U{2502}\U{251C}\U{2514}\U{2500} "
    ensures Indentation(Utf8.EncodeChar(c), 1, if c == ' ' then 0 else 1)
  {
    var bs := Utf8.EncodeChar(c);
    if c == ' ' {
      assert bs == [0x20];
      assert CountE2(bs, 1) == CountE2(bs, 0);
    } else {
      CharBytes(c);
      assert CountE2(bs, 3) == CountE2(bs, 2) == CountE2(bs, 1) == 1;
    }
  }

  function BoxChars(s: string): nat {
    if s == "" then 0 else (if s[0] == ' ' then 0 else 1) + BoxChars(s[1..])
  }

  lemma {:induction false} TextIndentation(s: string)
    requires forall i :: 0 <= i < |s| ==> s[i] in "\U{2502}\U{251C}\U{2514}\U{2500} "
    ensures Indentation(Utf8.Encode(s), |s|, BoxChars(s))
  {
    hide Indentation;
    if s == "" {
      NoIndentation();
    } else {
      CharIndentation(s[0]);
      TextIndentation(s[1..]);
      IndentationConcat(Utf8.EncodeChar(s[0]), Utf8.Encode(s[1..]), 1, |s| - 1, if s[0] == ' ' then 0 else 1, BoxChars(s[1..]));
    }
  }

  lemma NoIndentation()
    ensures Indentation([], 0, 0)
  {
  }

  lemma {:induction false} BoxCharsConcat(s: string, t: string)
    ensures BoxChars(s + t) == BoxChars(s) + BoxChars(t)
  {
    if s == "" {
      assert s + t == t;
    } else {
      assert (s + t)[1..] == s[1..] + t;
      BoxCharsConcat(s[1..], t);
    }
  }

  predicate Drawn(s: string) {
    forall i :: 0 <= i < |s| ==> s[i] in "\U{2502}\U{251C}\U{2514}\U{2500} "
  }

  lemma {:induction false} IndentsDrawn(a: seq<bool>)
    ensures Drawn(Indents(a))
  {
    if a != [] { IndentsDrawn(a[1..]); }
  }

  lemma ConnectorDrawn(more: bool)
    ensures Drawn(Connector(more)) && BoxChars(Connector(more)) == 4
  {
    var s := Connector(more);
    assert s[1..][1..][1..][1..] == "";
    assert BoxChars(s[1..][1..][1..]) == 1;
    assert BoxChars(s[1..][1..]) == 2;
    assert BoxChars(s[1..]) == 3;
  }

  lemma DrawnConcat(s: string, t: string)
    requires Drawn(s) && Drawn(t)
    ensures Drawn(s + t)
  {
  }

  lemma HeadBytes(r: Rendered)
    requires r.Valid()
    ensures Indentation(Utf8.Encode(Head(r)), 4 * r.DepthOf(), BoxChars(Head(r)))
    ensures r.DepthOf() > 0 ==> BoxChars(Head(r)) >= 4
    ensures r.DepthOf() == 0 ==> Utf8.Encode(Head(r)) == []
  {
    hide Indentation, Indents, BoxChars, Drawn, Depth;
    DepthOfText(r);
    IndentsDrawn(r.ancestors);
    match r.connector
    case None =>
      assert Head(r) == Indents(r.ancestors);
      HeadIndentation(Head(r));
    case Some(more) =>
      ConnectorDrawn(more);
      assert Head(r) == Indents(r.ancestors) + Connector(more);
      DrawnConcat(Indents(r.ancestors), Connector(more));
      BoxCharsConcat(Indents(r.ancestors), Connector(more));
      HeadIndentation(Head(r));
  }

  lemma HeadIndentation(s: string)
    requires Drawn(s)
    ensures Indentation(Utf8.Encode(s), |s|, BoxChars(s))
  {
    TextIndentation(s);
  }

  lemma AsciiSlice(s: string, lo: nat, hi: nat)
    requires Utf8.IsAscii(s) && lo <= hi <= |s|
    ensures |Utf8.Encode(s)| == |s| && Utf8.Encode(s)[lo..hi] == Utf8.Encode(s[lo..hi])
  {
    Utf8.AsciiEncoding(s);
    Utf8.AsciiEncoding(s[lo..hi]);
  }

  lemma DecodeAsciiEncoded(s: string)
    requires Utf8.IsAscii(s)
    ensures DecodeAscii(Utf8.Encode(s)) == Some(s)
  {
    Utf8.AsciiEncoding(s);
    assert DecodeAscii(Utf8.Encode(s)).value == s;
  }

  lemma MarkerBytes()
    ensures Utf8.Encode(STORE) == STORE_BYTES && Utf8.Encode(BACKREF) == BACKREF_BYTES
  {
    hide Utf8.Encode;
    Utf8.AsciiEncoding(STORE);
    Utf8.AsciiEncoding(BACKREF);
    assert forall i :: 0 <= i < 11 ==> STORE_BYTES[i] == STORE[i] as int;
    assert forall i :: 0 <= i < 6 ==> BACKREF_BYTES[i] == BACKREF[i] as int;
  }

  /** The prefix is found right behind the indentation, which holds no slash. */
  lemma {:induction false} FindAfterHead(head: Bytes, body: Bytes, start: nat, end: nat)
    requires start <= |head| && |head| + 11 <= end <= |head| + |body|
    requires forall i :: 0 <= i < |head| ==> head[i] != 0x2F
    requires STORE_BYTES <= body
    ensures Find(head + body, STORE_BYTES, start, end) == Some(|head|)
    decreases |head| - start
  {
    var line := head + body;
    assert line[start..start + 11][0] == line[start];
    if start == |head| {
      assert line[start..start + 11] == body[..11] == STORE_BYTES;
    } else {
      FindAfterHead(head, body, start + 1, end);
    }
  }

  lemma BodyAscii(r: Rendered)
    requires r.Valid()
    ensures Utf8.IsAscii(Body(r)) && |Body(r)| >= 44 && |Utf8.Encode(Body(r))| == |Body(r)|
  {
    Utf8.AsciiEncoding(Body(r));
  }

  lemma MarkerLength()
    ensures |BACKREF| == |BACKREF_BYTES| == 6 && |STORE| == |STORE_BYTES| == 11
  {
  }

  function LastSix<T>(s: seq<T>): seq<T>
    requires |s| >= 6
  {
    s[|s| - 6..]
  }

  lemma EndsWithSix<T>(s: seq<T>, suffix: seq<T>)
    requires |s| >= 6 && |suffix| == 6
    ensures EndsWith(s, suffix) <==> LastSix(s) == suffix
  {
  }

  lemma LastSixConcat(a: Bytes, b: Bytes)
    requires |b| >= 6
    ensures LastSix(a + b) == LastSix(b)
  {
  }

  lemma LastSixEncoded(body: string)
    requires Utf8.IsAscii(body) && |body| >= 6
    ensures |Utf8.Encode(body)| == |body| && LastSix(Utf8.Encode(body)) == Utf8.Encode(LastSix(body))
  {
    hide Utf8.Encode, Utf8.IsAscii;
    AsciiSlice(body, |body| - 6, |body|);
    assert LastSix(body) == body[|body| - 6..|body|];
    assert LastSix(Utf8.Encode(body)) == Utf8.Encode(body)[|body| - 6..|body|];
  }

  lemma EndsWithBytes(head: Bytes, body: string)
    requires Utf8.IsAscii(body) && |body| >= 6
    ensures EndsWith(head + Utf8.Encode(body), BACKREF_BYTES) <==> EndsWith(body, BACKREF)
  {
    hide Utf8.Encode, BACKREF_BYTES, BACKREF, EndsWith, LastSix, Utf8.IsAscii;
    MarkerLength();
    LastSixEncoded(body);
    LastSixConcat(head, Utf8.Encode(body));
    EndsWithSix(head + Utf8.Encode(body), BACKREF_BYTES);
    EndsWithSix(body, BACKREF);
    SameCode(LastSix(body));
  }

  lemma SameCode(s: string)
    ensures Utf8.Encode(s) == BACKREF_BYTES <==> s == BACKREF
  {
    hide Utf8.Encode, BACKREF_BYTES, BACKREF;
    MarkerBytes();
    if Utf8.Encode(s) == BACKREF_BYTES {
      Utf8.EncodeInjective(s, BACKREF);
    }
  }

  lemma BareAscii(r: Rendered)
    requires r.Valid()
    ensures Utf8.IsAscii(Bare(r))
  {
  }

  /** Hash and name as byte slices. */
  lemma MiddleSlice(head: Bytes, mid: Bytes, tail: Bytes, lo: nat, hi: nat)
    requires lo <= hi <= |mid|
    ensures Slice(head + mid + tail, |head| + lo, |head| + hi) == mid[lo..hi]
  {
    var line := head + mid + tail;
    if lo < hi {
      assert line[|head| + lo..|head| + hi] == mid[lo..hi];
    }
  }

  lemma PlainFields(hash: string, name: string)
    requires |hash| == 32
    ensures var p := STORE + hash + "-" + name; |p| == 44 + |name| && p[11..43] == hash && p[44..|p|] == name
  {
  }

  lemma FieldBytes(head: Bytes, tail: Bytes, r: Rendered)
    requires r.Valid()
    ensures var line := head + Utf8.Encode(STORE + r.hash + "-" + Bare(r)) + tail;
      var end := |head| + 44 + |Bare(r)|;
      && |line| == end + |tail|
      && Slice(line, |head| + 11, |head| + 43) == Utf8.Encode(r.hash)
      && Slice(line, |head| + 44, end) == Utf8.Encode(Bare(r))
  {
    hide Slice, Bare, Utf8.Encode, STORE;
    var p := STORE + r.hash + "-" + Bare(r);
    BareAscii(r);
    PlainFields(r.hash, Bare(r));
    PlainAscii(r.hash, Bare(r));
    AsciiSlice(p, 11, 43);
    AsciiSlice(p, 44, |p|);
    MiddleSlice(head, Utf8.Encode(p), tail, 11, 43);
    MiddleSlice(head, Utf8.Encode(p), tail, 44, |p|);
  }

  lemma PlainAscii(hash: string, name: string)
    requires Utf8.IsAscii(hash) && Utf8.IsAscii(name)
    ensures Utf8.IsAscii(STORE + hash + "-" + name)
  {
    var p := STORE + hash + "-" + name;
    assert Utf8.IsAscii(STORE);
    forall i | 0 <= i < |p| ensures (p[i] as int) < 0x80 {
      if i < 11 { assert p[i] == STORE[i]; }
    }
  }

  lemma StripBytes(head: Bytes, r: Rendered) returns (tail: Bytes)
    requires r.Valid()
    ensures head + Utf8.Encode(Body(r)) == head + Utf8.Encode(STORE + r.hash + "-" + Bare(r)) + tail
    ensures |tail| == if EndsWith(Body(r), BACKREF) then 6 else 0
  {
    hide Utf8.Encode, BACKREF_BYTES, BACKREF, STORE, Body, Bare;
    StripMarker(r);
    MarkerLength();
    var b := Body(r);
    var p := STORE + r.hash + "-" + Bare(r);
    if EndsWith(b, BACKREF) {
      assert b == b[..|b| - 6] + b[|b| - 6..];
      assert b == p + BACKREF;
      Utf8.EncodeConcat(p, BACKREF);
      MarkerBytes();
      tail := BACKREF_BYTES;
    } else {
      tail := [];
    }
  }

  /** The byte arithmetic, on the UTF-8 encoding of every rendered line. */
  lemma BytesDecode(r: Rendered)
    requires r.Valid()
    ensures ParseLineBytes(Utf8.Encode(Text(r))) == Ok(Expected(r))
  {
    hide Indents, BoxChars, CountE2, Depth, Body, Head, DecodeAscii, Slice, STORE_BYTES, BACKREF_BYTES, Find, EndsWith;
    var head, body := Utf8.Encode(Head(r)), Utf8.Encode(Body(r));
    var line := Utf8.Encode(Text(r));
    Utf8.EncodeConcat(Head(r), Body(r));
    HeadBytes(r);
    BodyAscii(r);
    EndsWithBytes(head, Body(r));
    StripMarkerFlag(r);
    var tail := StripBytes(head, r);
    FieldBytes(head, tail, r);
    var end := |line| - |tail|;
    BodyStartsWithStore(r);
    FindAfterHead(head, body, 0, end);
    HeadCount(head, body);
    BareAscii(r);
    DecodeAsciiEncoded(Bare(r));
    BytesResult(line, end, |head|, BoxChars(Head(r)), r.DepthOf(), Utf8.Encode(r.hash), Bare(r));
  }

  /** The arithmetic of `parse_line_bytes`, given what each search and slice yields. */
  lemma BytesResult(line: Bytes, end: nat, offset: nat, e2: nat, depth: nat, hash: Bytes, name: string)
    requires |line| >= 6 && end == (if EndsWith(line, BACKREF_BYTES) then |line| - 6 else |line|)
    requires offset <= |line| && Find(line, STORE_BYTES, 0, end) == Some(offset) && CountE2(line, offset) == e2
    requires offset == 4 * depth + 2 * e2 && (offset > 0 ==> e2 >= 4)
    requires Slice(line, offset + 11, offset + 43) == hash && DecodeAscii(Slice(line, offset + 44, end)) == Some(name)
    ensures ParseLineBytes(line) == Ok(Node(depth, hash, name, EndsWith(line, BACKREF_BYTES)))
  {
    hide Find, CountE2, Slice, DecodeAscii, STORE_BYTES, BACKREF_BYTES;
  }

  lemma StripMarkerFlag(r: Rendered)
    ensures Expected(r).backref <==> EndsWith(Body(r), BACKREF)
    ensures Expected(r).name == Bare(r)
  {
    StripMarker(r);
  }

  lemma HeadCount(head: Bytes, body: Bytes)
    ensures CountE2(head + body, |head|) == CountE2(head, |head|)
  {
    CountE2Concat(head, body, |head|);
  }

  lemma BodyStartsWithStore(r: Rendered)
    requires r.Valid()
    ensures STORE_BYTES <= Utf8.Encode(Body(r)) && |STORE_BYTES| == 11 && |BACKREF_BYTES| == 6
  {
    hide Utf8.Encode, STORE_BYTES, BACKREF_BYTES, STORE, BACKREF;
    MarkerBytes();
    MarkerLength();
    BodyAscii(r);
    AsciiSlice(Body(r), 0, 11);
    assert Body(r)[0..11] == STORE;
    assert Utf8.Encode(Body(r))[..11] == STORE_BYTES;
  }

  // --------------------------------------------------------------------------------- main theorem

  /** For every depth, choice of bars, blanks and connector, 32-character ASCII hash, ASCII name and
      backref flag: both decoders succeed and agree, and what they return is the rendered line's
      fields if and only if the line is a backref or its name does not itself end in the marker. */
  lemma DecodersAgree(r: Rendered)
    requires r.Valid()
    ensures ParseLineBytes(Utf8.Encode(Text(r))) == ParseText(Text(r)) && ParseText(Text(r)).Ok?
    ensures ParseText(Text(r)).value.depth == r.DepthOf() && ParseText(Text(r)).value.hash == Utf8.Encode(r.hash)
    ensures ParseText(Text(r)).value == Node(r.DepthOf(), Utf8.Encode(r.hash), r.name, r.backref) <==>
      r.backref || !EndsWith(r.name, BACKREF)
  {
    hide Indents, Depth, ParseLineBytes, ParseText, Text;
    TextDecodes(r);
    BytesDecode(r);
  }

  // --------------------------------------------------------------------------------- whole streams

  /** The text of the line does not itself end in a newline. */
  predicate EndsInline(r: Rendered) {
    r.backref || r.name == "" || r.name[|r.name| - 1] != '\n'
  }

  lemma MarkerEnd()
    ensures |BACKREF| == 6 && BACKREF[5] == ']'
  {
  }

  lemma LastByte(r: Rendered)
    requires r.Valid()
    ensures var line := Utf8.Encode(Text(r)); line != [] && (line[|line| - 1] == 0x0A <==> !EndsInline(r))
  {
    hide Utf8.Encode, Head, BACKREF, STORE;
    var body := Body(r);
    Utf8.EncodeConcat(Head(r), body);
    BodyAscii(r);
    Utf8.AsciiEncoding(body);
    assert Utf8.Encode(body)[|body| - 1] == body[|body| - 1] as int;
    if r.backref {
      MarkerEnd();
      assert body[|body| - 1] == BACKREF[5];
    } else if r.name == "" {
      assert body[|body| - 1] == '-';
    } else {
      assert body[|body| - 1] == r.name[|r.name| - 1];
    }
  }

  /** A line with its newline always decodes to its fields. */
  lemma RawDecodes(r: Rendered)
    requires r.Valid()
    ensures ParseRaw(Utf8.Encode(Text(r)) + [0x0A]) == Ok(Expected(r))
  {
    hide Utf8.Encode, Text, Expected, ParseLineBytes;
    BytesDecode(r);
    var raw := Utf8.Encode(Text(r)) + [0x0A];
    assert raw[..|raw| - 1] == Utf8.Encode(Text(r));
  }

  lemma SameHead(r: Rendered, name: string)
    ensures Head(r.(name := name)) == Head(r)
  {
  }

  lemma Chopped(r: Rendered)
    requires r.Valid() && !EndsInline(r)
    ensures ParseRaw(Utf8.Encode(Text(r))) == Ok(Expected(r.(name := r.name[..|r.name| - 1])))
  {
    hide Utf8.Encode, Head, STORE, Expected, ParseLineBytes;
    var short := r.(name := r.name[..|r.name| - 1]);
    SameHead(r, short.name);
    assert r.name == short.name + "\n";
    assert Body(r) == Body(short) + "\n";
    assert Text(r) == Text(short) + "\n";
    Utf8.EncodeConcat(Text(short), "\n");
    NewlineByte();
    assert Utf8.Encode(Text(r)) == Utf8.Encode(Text(short)) + [0x0A];
    RawDecodes(short);
  }

  lemma NewlineByte()
    ensures Utf8.Encode("\n") == [0x0A]
  {
    Utf8.AsciiEncoding("\n");
  }

  /** The last line of a stream may come without its newline. It decodes to its fields exactly when
      its text does not itself end in a newline, which the stream would strip off the name. */
  lemma UnterminatedDecodes(r: Rendered)
    requires r.Valid()
    ensures ParseRaw(Utf8.Encode(Text(r))) == Ok(Expected(r)) <==> EndsInline(r)
  {
    hide Utf8.Encode, Text, ParseLineBytes, EndsWith;
    LastByte(r);
    if EndsInline(r) {
      BytesDecode(r);
    } else {
      Chopped(r);
      NewlineIsNoMarker(r.name);
    }
  }

  lemma NewlineIsNoMarker(name: string)
    requires name != "" && name[|name| - 1] == '\n'
    ensures !EndsWith(name, BACKREF)
  {
    assert BACKREF[5] == ']';
    if |name| >= 6 {
      assert name[|name| - 6..][5] == '\n';
    }
  }

  predicate IsLineOf(raw: Bytes, r: Rendered) {
    r.Valid() && (raw == Utf8.Encode(Text(r)) + [0x0A] || (EndsInline(r) && raw == Utf8.Encode(Text(r))))
  }

  /** The stream of any rendered tree: every node in order, and no raise. */
  lemma {:induction false} StreamDecodes(stream: seq<Bytes>, lines: seq<Rendered>)
    requires |stream| == |lines| && forall k :: 0 <= k < |lines| ==> IsLineOf(stream[k], lines[k])
    ensures Decoded(stream).0 == seq(|lines|, i requires 0 <= i < |lines| => Expected(lines[i]))
    ensures Decoded(stream).1 == Ok(())
  {
    hide ParseRaw, Utf8.Encode, Text, Expected, EndsInline;
    if stream != [] {
      assert IsLineOf(stream[0], lines[0]);
      RawDecodes(lines[0]);
      UnterminatedDecodes(lines[0]);
      StreamDecodes(stream[1..], lines[1..]);
      assert Decoded(stream).0 == seq(|lines|, i requires 0 <= i < |lines| => Expected(lines[i]));
    }
  }

  // ------------------------------------------------------------------------- lines nobody rendered

  predicate StoreAt(line: Bytes, at: nat) {
    at + 11 <= |line| && line[at..at + 11] == STORE_BYTES
  }

  /** The first place of the store prefix among the first `end` bytes. */
  predicate FirstStore(line: Bytes, end: nat, at: nat) {
    at + 11 <= end && StoreAt(line, at) && forall j: nat :: j < at ==> !StoreAt(line, j)
  }

  lemma {:induction false} FindIs(line: Bytes, start: nat, end: nat)
    requires end <= |line|
    ensures var r := Find(line, STORE_BYTES, start, end);
      && (r.None? ==> forall j: nat :: start <= j && j + 11 <= end ==> !StoreAt(line, j))
      && (r.Some? ==> StoreAt(line, r.value) && forall j: nat :: start <= j < r.value ==> !StoreAt(line, j))
    decreases |line| - start
  {
    if start + 11 <= end && line[start..start + 11] != STORE_BYTES { FindIs(line, start + 1, end); }
  }

  lemma {:induction false} CountIs(line: Bytes, n: nat)
    requires n <= |line|
    ensures CountE2(line, n) == multiset(line[..n])[0xE2]
  {
    if n > 0 {
      CountIs(line, n - 1);
      assert line[..n] == line[..n - 1] + [line[n - 1]];
    }
  }

  /** The bytes of a line with the marker off. */
  function Payload(line: Bytes): nat {
    if |line| >= 6 && line[|line| - 6..] == BACKREF_BYTES then |line| - 6 else |line|
  }

  /** When the byte decoder raises: no store prefix, an indentation that is not made of four-character
      segments, one without a connector, or a name that is not ASCII. */
  lemma BytesRaiseIff(line: Bytes)
    ensures ParseLineBytes(line).Ok? <==> exists at: nat ::
      && FirstStore(line, Payload(line), at)
      && (at - 2 * multiset(line[..at])[0xE2]) % 4 == 0
      && (at == 0 || multiset(line[..at])[0xE2] >= 4)
      && forall i :: at + 44 <= i < Payload(line) ==> line[i] < 0x80
  {
    hide STORE_BYTES, BACKREF_BYTES, CountE2, Find, ParseLineBytes;
    var end := Payload(line);
    FindIs(line, 0, end);
    match Find(line, STORE_BYTES, 0, end)
    case None =>
      BytesWithoutStore(line);
    case Some(offset) =>
      CountIs(line, offset);
      BytesAt(line, offset);
      assert FirstStore(line, end, offset);
      forall at: nat | FirstStore(line, end, at) ensures at == offset {}
  }

  lemma BytesWithoutStore(line: Bytes)
    requires Find(line, STORE_BYTES, 0, Payload(line)).None?
    ensures ParseLineBytes(line).Raised?
  {
    hide Find, STORE_BYTES;
  }

  lemma BytesAt(line: Bytes, offset: nat)
    requires Find(line, STORE_BYTES, 0, Payload(line)) == Some(offset)
    ensures ParseLineBytes(line).Ok? <==>
      && (offset - 2 * CountE2(line, offset)) % 4 == 0
      && (offset == 0 || CountE2(line, offset) >= 4)
      && forall i :: offset + 44 <= i < Payload(line) ==> line[i] < 0x80
  {
    hide Find, STORE_BYTES, CountE2, Slice, DecodeAscii;
    SliceDecodes(line, offset + 44, Payload(line));
  }

  lemma SliceDecodes(line: Bytes, lo: nat, end: nat)
    requires end <= |line|
    ensures DecodeAscii(Slice(line, lo, end)).Some? <==> forall i :: lo <= i < end ==> line[i] < 0x80
  {
    var name := Slice(line, lo, end);
    if forall i :: 0 <= i < |name| ==> name[i] < 0x80 {
      forall i | lo <= i < end ensures line[i] < 0x80 {
        assert name[i - lo] == line[i];
      }
    }
  }

  /** The segments of an indentation: bars and blanks, then maybe a connector. */
  function Drawing(ancestors: seq<bool>, connector: Option<bool>): string {
    Indents(ancestors) + (match connector case None => "" case Some(more) => Connector(more))
  }

  predicate StartsBare(s: string) {
    |s| < 4 || (s[..4] != BAR_SEGMENT && s[..4] != BLANK_SEGMENT && s[..4] != BRANCH_SEGMENT && s[..4] != LAST_SEGMENT)
  }

  lemma DepthOfBare(s: string)
    requires StartsBare(s)
    ensures Depth(s) == 0
  {
    hide BAR_SEGMENT, BLANK_SEGMENT, BRANCH_SEGMENT, LAST_SEGMENT;
  }

  lemma DepthOfDrawing(ancestors: seq<bool>, connector: Option<bool>, rest: string)
    requires connector.Some? || StartsBare(rest)
    ensures var depth := |ancestors| + if connector.Some? then 1 else 0;
      && |Drawing(ancestors, connector)| == 4 * depth
      && Depth(Drawing(ancestors, connector) + rest) == depth
  {
    hide Indents, Depth, StartsBare, Connector, IsConnector, IsIndent;
    match connector
    case None =>
      DepthOfBare(rest);
      DepthOfIndents(ancestors, rest);
      assert Drawing(ancestors, connector) == Indents(ancestors);
    case Some(more) =>
      SegmentsDiffer(true, more);
      DepthOfConnector(more, rest);
      DepthOfIndents(ancestors, Connector(more) + rest);
      assert Drawing(ancestors, connector) + rest == Indents(ancestors) + (Connector(more) + rest);
  }

  /** The text decoder takes any indentation, also one without a connector, and any rest: it raises
      exactly for a store path whose hash is not ASCII, and a rest that is no store path is all name. */
  lemma TextOfAnyRest(ancestors: seq<bool>, connector: Option<bool>, path: string, marked: bool)
    requires connector.Some? || StartsBare(path + if marked then BACKREF else "")
    requires marked || |path| < 6 || path[|path| - 6..] != BACKREF
    ensures var depth := |ancestors| + if connector.Some? then 1 else 0;
      var r := ParseText(Drawing(ancestors, connector) + (path + if marked then BACKREF else ""));
      && (!(STORE <= path) ==> r == Ok(Node(depth, [], path, marked)))
      && (STORE <= path ==> (r.Raised? <==> exists i :: 11 <= i < |path| && i < 43 && path[i] as int >= 0x80))
  {
    hide Depth, Indents, BACKREF, STORE, StartsBare, Drawing, ParseRest;
    var rest := path + if marked then BACKREF else "";
    var drawing := Drawing(ancestors, connector);
    DepthOfDrawing(ancestors, connector, rest);
    assert (drawing + rest)[|drawing|..] == rest;
    RestOf(|ancestors| + if connector.Some? then 1 else 0, path, marked);
  }

  lemma RestOf(depth: nat, path: string, marked: bool)
    requires marked || |path| < 6 || path[|path| - 6..] != BACKREF
    ensures var r := ParseRest(depth, path + if marked then BACKREF else "");
      && (!(STORE <= path) ==> r == Ok(Node(depth, [], path, marked)))
      && (STORE <= path ==> (r.Raised? <==> exists i :: 11 <= i < |path| && i < 43 && path[i] as int >= 0x80))
  {
    hide BACKREF, STORE, Slice;
    MarkerLength();
    var rest := path + if marked then BACKREF else "";
    if marked {
      assert rest[|path|..] == BACKREF;
      assert rest[..|path|] == path;
    } else {
      assert rest == path;
    }
    SliceAscii(path, 11, 43);
  }

  lemma SliceAscii(s: string, lo: nat, hi: nat)
    ensures Utf8.IsAscii(Slice(s, lo, hi)) <==> forall i :: lo <= i < |s| && i < hi ==> (s[i] as int) < 0x80
  {
    var slice := Slice(s, lo, hi);
    if Utf8.IsAscii(slice) {
      forall i | lo <= i < |s| && i < hi ensures (s[i] as int) < 0x80 {
        assert slice[i - lo] == s[i];
      }
    }
  }
}
