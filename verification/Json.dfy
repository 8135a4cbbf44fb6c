/** JSON values, the printer of Python's `json.dumps(..., ensure_ascii=True)` and the parser of
    `json.loads`: objects, arrays, numbers and strings as sections 4, 5, 6 and 7 of RFC 8259 define
    them, with the three float words that Python adds. */
module Json {
  import opened Wrappers

  // ----------------------------------------------------------------------------------- numerals

  predicate IsDigit(c: char) {
    '0' <= c <= '9'
  }

  /** Length of the leading run of digits. */
  function DigitRun(s: string): (k: nat)
    ensures k <= |s|
    ensures forall i :: 0 <= i < k ==> IsDigit(s[i])
    ensures k < |s| ==> !IsDigit(s[k])
  {
    if s != "" && IsDigit(s[0]) then 1 + DigitRun(s[1..]) else 0
  }

  /** Length of the integer part: no leading zeros. */
  function IntRun(s: string): (k: nat)
    ensures k <= |s|
    ensures forall i :: 0 <= i < k ==> IsDigit(s[i])
  {
    if s != "" && s[0] == '0' then 1 else DigitRun(s)
  }

  /** Length of a fraction at the start of `s`, or 0. */
  function FracRun(s: string): (k: nat)
    ensures k <= |s|
    ensures k > 0 ==> k >= 2 && s[0] == '.' && forall i :: 1 <= i < k ==> IsDigit(s[i])
  {
    if s == "" || s[0] != '.' || DigitRun(s[1..]) == 0 then 0 else 1 + DigitRun(s[1..])
  }

  function SignRun(s: string): (k: nat)
    ensures k <= |s|
  {
    if s != "" && (s[0] == '+' || s[0] == '-') then 1 else 0
  }

  /** Length of an exponent at the start of `s`, or 0. */
  function ExpRun(s: string): (k: nat)
    ensures k <= |s|
  {
    if s == "" || (s[0] != 'e' && s[0] != 'E') then 0
    else
      var sign := SignRun(s[1..]);
      var digits := DigitRun(s[1 + sign..]);
      if digits == 0 then 0 else 1 + sign + digits
  }

  /** Length of the unsigned number with a fraction or an exponent that `s` starts with, or 0. */
  function FloatRun(s: string): (k: nat)
    ensures k <= |s|
  {
    var i := IntRun(s);
    var f := FracRun(s[i..]);
    var e := ExpRun(s[i..][f..]);
    if i == 0 || f + e == 0 then 0 else i + f + e
  }

  /** What follows a number would be more of it: it was not complete. */
  predicate ContinuesNumber(s: string) {
    s != "" && (IsDigit(s[0]) || s[0] == '.' || s[0] == 'e' || s[0] == 'E')
  }

  /** `repr` of a finite float. */
  predicate IsFloatText(t: string) {
    t != "" && (if t[0] == '-' then |t| > 1 && FloatRun(t[1..]) == |t| - 1 else FloatRun(t) == |t|)
  }

  const FLOAT_WORDS := ["NaN", "Infinity", "-Infinity"]

  /** A float is kept as the text it is written as. */
  type Numeral = t: string | t in FLOAT_WORDS || IsFloatText(t) witness "NaN"

  lemma {:induction false} DigitRunIs(ds: string, rest: string)
    requires forall i :: 0 <= i < |ds| ==> IsDigit(ds[i])
    requires rest == "" || !IsDigit(rest[0])
    ensures DigitRun(ds + rest) == |ds|
  {
    if ds == "" {
      assert ds + rest == rest;
    } else {
      assert (ds + rest)[1..] == ds[1..] + rest;
      DigitRunIs(ds[1..], rest);
    }
  }

  lemma IntRunLocal(s: string, r: string)
    requires IntRun(s) > 0 && (r == "" || !IsDigit(r[0]))
    ensures IntRun(s[..IntRun(s)] + r) == IntRun(s)
  {
    var t := s[..IntRun(s)];
    assert (t + r)[0] == s[0];
    if s[0] != '0' { DigitRunIs(t, r); }
  }

  lemma FracRunLocal(s: string, r: string)
    requires FracRun(s) > 0 && (r == "" || !IsDigit(r[0]))
    ensures FracRun(s[..FracRun(s)] + r) == FracRun(s)
  {
    var t := s[..FracRun(s)];
    assert (t + r)[1..] == t[1..] + r;
    DigitRunIs(t[1..], r);
  }

  lemma ExpRunLocal(s: string, r: string)
    requires ExpRun(s) > 0 && (r == "" || !IsDigit(r[0]))
    ensures ExpRun(s[..ExpRun(s)] + r) == ExpRun(s)
  {
    var t := s[..ExpRun(s)];
    var sign := SignRun(s[1..]);
    var digits := s[1 + sign..ExpRun(s)];
    assert forall i :: 0 <= i < |digits| ==> digits[i] == s[1 + sign..][i];
    assert (t + r)[1..] == t[1..] + r && t[1..][0] == s[1..][0];
    assert (t + r)[1 + sign..] == digits + r;
    DigitRunIs(digits, r);
  }

  lemma DropFront(a: string, b: string)
    ensures (a + b)[|a|..] == b
  {
  }

  lemma ThreeParts(s: string, i: nat, f: nat, e: nat, r: string)
    requires i <= |s| && f <= |s[i..]| && e <= |s[i..][f..]|
    ensures s[..i + f + e] + r == s[..i] + (s[i..][..f] + (s[i..][f..][..e] + r))
  {
    assert s[..i + f + e] == s[..i] + s[i..][..f] + s[i..][f..][..e];
  }

  lemma FracLocal(s: string, r: string)
    requires r == "" || (r[0] != '.' && !IsDigit(r[0]))
    ensures FracRun(s[..FracRun(s)] + r) == FracRun(s)
  {
    hide FracRun, IsDigit;
    if FracRun(s) > 0 {
      FracRunLocal(s, r);
    } else {
      assert s[..0] + r == r;
      NoFraction(r);
    }
  }

  lemma ExpLocal(s: string, r: string)
    requires !ContinuesNumber(r)
    ensures ExpRun(s[..ExpRun(s)] + r) == ExpRun(s)
  {
    hide ExpRun, IsDigit;
    if ExpRun(s) > 0 {
      ExpRunLocal(s, r);
    } else {
      assert s[..0] + r == r;
      NoExponent(r);
    }
  }

  /** The text behind the integer part starts with no digit, the one behind the fraction with no dot. */
  lemma TailStart(s: string, r: string)
    requires !ContinuesNumber(r)
    ensures var t := s[..ExpRun(s)] + r; t == "" || (t[0] != '.' && !IsDigit(t[0]))
  {
    hide ExpRun;
    ExpStart(s);
    if ExpRun(s) == 0 { assert s[..0] + r == r; }
  }

  /** Where a number ends depends on its own text only. */
  lemma FloatRunLocal(s: string, r: string)
    requires FloatRun(s) > 0 && !ContinuesNumber(r)
    ensures FloatRun(s[..FloatRun(s)] + r) == FloatRun(s)
  {
    hide IntRun, FracRun, ExpRun, ContinuesNumber, IsDigit;
    var i := IntRun(s);
    var f := FracRun(s[i..]);
    var u := s[i..][f..];
    var e := ExpRun(u);
    var tailE := u[..e] + r;
    var tailF := s[i..][..f] + tailE;
    ThreeParts(s, i, f, e, r);
    DropFront(s[..i], tailF);
    DropFront(s[i..][..f], tailE);
    TailStart(u, r);
    ExpLocal(u, r);
    FracLocal(s[i..], tailE);
    assert tailF == "" || !IsDigit(tailF[0]) by {
      if f == 0 { assert tailF == tailE; } else { FracStart(s[i..]); }
    }
    IntRunLocal(s, tailF);
  }

  lemma FracStart(s: string)
    ensures FracRun(s) > 0 ==> s[0] == '.' && !IsDigit(s[0])
  {
  }

  lemma ExpStart(s: string)
    ensures ExpRun(s) > 0 ==> s != "" && (s[0] == 'e' || s[0] == 'E')
  {
  }

  lemma NoExponent(r: string)
    requires !ContinuesNumber(r)
    ensures ExpRun(r) == 0
  {
  }

  lemma NoFraction(r: string)
    requires r == "" || r[0] != '.'
    ensures FracRun(r) == 0
  {
  }

  // ------------------------------------------------------------------------------------- values

  /** A Python dict keeps insertion order, so an object is its list of members. */
  datatype Member = Member(key: string, value: Json)

  datatype Json =
    | Null
    | Bool(b: bool)
    | Num(n: int)
    | Float(text: Numeral)
    | Str(s: string)
    | Arr(items: seq<Json>)
    | Obj(members: seq<Member>)

  predicate HasKey(ms: seq<Member>, k: string) {
    exists i :: 0 <= i < |ms| && ms[i].key == k
  }

  predicate UniqueKeys(ms: seq<Member>) {
    forall i, j :: 0 <= i < j < |ms| ==> ms[i].key != ms[j].key
  }

  /** What every Python value satisfies: no dict, at any depth, has one key twice. */
  predicate WellFormed(v: Json) {
    match v
    case Arr(items) => forall i :: 0 <= i < |items| ==> WellFormed(items[i])
    case Obj(ms) => UniqueKeys(ms) && forall i :: 0 <= i < |ms| ==> WellFormed(ms[i].value)
    case _ => true
  }

  /** `d.get(k)`. */
  function Get(ms: seq<Member>, k: string): (r: Option<Json>)
    ensures r.Some? <==> HasKey(ms, k)
  {
    if ms == [] then None
    else if ms[0].key == k then assert HasKey(ms, k); Some(ms[0].value)
    else
      var r := Get(ms[1..], k);
      assert HasKey(ms[1..], k) ==> HasKey(ms, k) by {
        if i :| 0 <= i < |ms[1..]| && ms[1..][i].key == k { assert ms[i + 1].key == k; }
      }
      assert HasKey(ms, k) ==> HasKey(ms[1..], k) by {
        if i :| 0 <= i < |ms| && ms[i].key == k { assert ms[1..][i - 1].key == k; }
      }
      r
  }

  /** `d[k] = v`: an existing key keeps its place. */
  function Put(ms: seq<Member>, m: Member): seq<Member> {
    if ms == [] then [m]
    else if ms[0].key == m.key then [m] + ms[1..]
    else [ms[0]] + Put(ms[1..], m)
  }

  /** `dict(pairs)`, as the parser builds an object: a later duplicate overwrites. */
  function Collapse(pairs: seq<Member>): seq<Member> {
    if pairs == [] then []
    else Put(Collapse(pairs[..|pairs| - 1]), pairs[|pairs| - 1])
  }

  // ----------------------------------------------------------------------------------- printing

  function DigitChar(d: int): char
    requires 0 <= d < 10
  {
    ('0' as int + d) as char
  }

  function NatText(n: nat): (s: string)
    ensures |s| > 0
  {
    if n < 10 then [DigitChar(n)] else NatText(n / 10) + [DigitChar(n % 10)]
  }

  function IntText(n: int): string {
    if n < 0 then "-" + NatText(-n) else NatText(n)
  }

  function HexChar(d: int): char
    requires 0 <= d < 16
  {
    if d < 10 then DigitChar(d) else ('a' as int + d - 10) as char
  }

  function Hex4(n: int): (s: string)
    requires 0 <= n < 0x1_0000
    ensures |s| == 4
  {
    [HexChar(n / 4096), HexChar(n / 256 % 16), HexChar(n / 16 % 16), HexChar(n % 16)]
  }

  /** The letter of the two-character escape, for the characters that have one. */
  function ShortForm(c: char): Option<char> {
    if c == '\"' || c == '\\' then Some(c)
    else if c == '\n' then Some('n')
    else if c == '\r' then Some('r')
    else if c == '\t' then Some('t')
    else if c as int == 12 then Some('f')
    else if c as int == 8 then Some('b')
    else None
  }

  /** One character inside a string literal, restricted to printable ASCII. */
  function EscapeChar(c: char): (s: string)
    ensures |s| > 0
  {
    var n := c as int;
    var short := ShortForm(c);
    if short.Some? then ['\\', short.value]
    else if 0x20 <= n < 0x7F then [c]
    else if n < 0x1_0000 then "\\u" + Hex4(n)
    else "\\u" + Hex4(0xD800 + (n - 0x1_0000) / 1024) + "\\u" + Hex4(0xDC00 + (n - 0x1_0000) % 1024)
  }

  function Escape(s: string): string {
    if s == "" then "" else EscapeChar(s[0]) + Escape(s[1..])
  }

  function Quote(s: string): string {
    "\"" + Escape(s) + "\""
  }

  function Spaces(n: nat): string {
    seq(n, _ => ' ')
  }

  /** `separators=(",", ":")`, the default separators, and `indent=2`. */
  datatype Layout = Tight | Roomy | Indented

  /** The line break of `indent=2` before an element at `level`; nothing on a single line. */
  function Break(layout: Layout, level: nat): string {
    if layout.Indented? then "\n" + Spaces(2 * level) else ""
  }

  /** What follows a comma. */
  function Gap(layout: Layout, level: nat): string {
    if layout.Roomy? then " " else Break(layout, level)
  }

  function Colon(layout: Layout): string {
    if layout.Tight? then ":" else ": "
  }

  /** `json.dumps`. */
  function Print(v: Json, layout: Layout, level: nat): string
    decreases v, 0
  {
    match v
    case Null => "null"
    case Bool(b) => if b then "true" else "false"
    case Num(n) => IntText(n)
    case Float(t) => t
    case Str(s) => Quote(s)
    case Arr(items) =>
      if items == [] then "[]"
      else "[" + Break(layout, level + 1) + PrintItems(items, layout, level + 1) + Break(layout, level) + "]"
    case Obj(ms) =>
      if ms == [] then "{}"
      else "{" + Break(layout, level + 1) + PrintMembers(ms, layout, level + 1) + Break(layout, level) + "}"
  }

  function PrintItems(items: seq<Json>, layout: Layout, level: nat): string
    requires items != []
    decreases items, 1
  {
    if |items| == 1 then Print(items[0], layout, level)
    else Print(items[0], layout, level) + "," + Gap(layout, level) + PrintItems(items[1..], layout, level)
  }

  function PrintMember(m: Member, layout: Layout, level: nat): string
    decreases m, 1
  {
    Quote(m.key) + Colon(layout) + Print(m.value, layout, level)
  }

  function PrintMembers(ms: seq<Member>, layout: Layout, level: nat): string
    requires ms != []
    decreases ms, 2
  {
    if |ms| == 1 then PrintMember(ms[0], layout, level)
    else PrintMember(ms[0], layout, level) + "," + Gap(layout, level) + PrintMembers(ms[1..], layout, level)
  }

  /** `json.dumps(v, separators=(",", ":"))`. */
  function Compact(v: Json): string {
    Print(v, Tight, 0)
  }

  /** `json.dumps(v)`. */
  function Line(v: Json): string {
    Print(v, Roomy, 0)
  }

  /** `json.dumps(v, indent=2)`. */
  function Pretty(v: Json): string {
    Print(v, Indented, 0)
  }

  // ------------------------------------------------------------------------------------ parsing

  datatype Parsed<+T> = Fail | Done(value: T, rest: string)

  predicate IsSpace(c: char) {
    c == ' ' || c == '\t' || c == '\n' || c == '\r'
  }

  function SkipSpace(s: string): (r: string)
    ensures |r| <= |s|
    ensures r != "" ==> !IsSpace(r[0])
  {
    if s != "" && IsSpace(s[0]) then SkipSpace(s[1..]) else s
  }

  function NatValue(s: string): nat
    requires forall i :: 0 <= i < |s| ==> IsDigit(s[i])
  {
    if s == "" then 0
    else
      assert IsDigit(s[|s| - 1]);
      NatValue(s[..|s| - 1]) * 10 + (s[|s| - 1] as int - '0' as int)
  }

  function ParseNat(s: string): (r: Parsed<nat>)
    ensures r.Done? ==> |r.rest| < |s|
  {
    var k := IntRun(s);
    if k == 0 || ContinuesNumber(s[k..]) then Fail else Done(NatValue(s[..k]), s[k..])
  }

  function HexDigit(c: char): (r: Option<int>)
    ensures r.Some? ==> 0 <= r.value < 16
  {
    if IsDigit(c) then Some(c as int - '0' as int)
    else if 'a' <= c <= 'f' then Some(c as int - 'a' as int + 10)
    else if 'A' <= c <= 'F' then Some(c as int - 'A' as int + 10)
    else None
  }

  /** The code unit of the four hex digits at the start of `s`. */
  function ParseHex4(s: string): (r: Option<int>)
    ensures r.Some? ==> 0 <= r.value < 0x1_0000 && |s| >= 4
  {
    if |s| < 4 then None
    else
      match (HexDigit(s[0]), HexDigit(s[1]), HexDigit(s[2]), HexDigit(s[3]))
      case (Some(a), Some(b), Some(c), Some(d)) => Some(a * 4096 + b * 256 + c * 16 + d)
      case _ => None
  }

  /** One character of a string literal; `s` starts after any earlier ones and not at the quote. */
  function UnescapeChar(s: string): (r: Parsed<char>)
    requires s != ""
    ensures r.Done? ==> |r.rest| < |s|
  {
    if s[0] != '\\' then
      if s[0] as int < 0x20 then Fail else Done(s[0], s[1..])
    else if |s| == 1 then Fail
    else if s[1] != 'u' then
      match ShortEscape(s[1])
      case None => Fail
      case Some(c) => Done(c, s[2..])
    else UnescapeUnicode(s[2..])
  }

  /** The character of a two-character escape. */
  function ShortEscape(c: char): Option<char> {
    if c == '\"' || c == '\\' || c == '/' then Some(c)
    else if c == 'n' then Some('\n')
    else if c == 'r' then Some('\r')
    else if c == 't' then Some('\t')
    else if c == 'f' then Some(12 as char)
    else if c == 'b' then Some(8 as char)
    else None
  }

  /** What follows `\u`: four hex digits, or a surrogate pair. A lone surrogate is no scalar value. */
  function UnescapeUnicode(s: string): (r: Parsed<char>)
    ensures r.Done? ==> |r.rest| <= |s|
  {
    match ParseHex4(s)
    case None => Fail
    case Some(u) =>
      if 0xD800 <= u < 0xDC00 then
        if |s| < 6 || s[4] != '\\' || s[5] != 'u' then Fail
        else
          match ParseHex4(s[6..])
          case None => Fail
          case Some(w) =>
            if 0xDC00 <= w < 0xE000 then Done(PairValue(u, w), s[10..]) else Fail
      else if 0xDC00 <= u < 0xE000 then Fail
      else Done(u as char, s[4..])
  }

  function PairValue(u: int, w: int): char
    requires 0xD800 <= u < 0xDC00 <= w < 0xE000
  {
    (0x1_0000 + (u - 0xD800) * 1024 + (w - 0xDC00)) as char
  }

  /** The rest of a string literal, closing quote included. */
  function ParseStringBody(s: string): (r: Parsed<string>)
    ensures r.Done? ==> |r.rest| < |s|
    decreases |s|
  {
    if s == "" then Fail
    else if s[0] == '\"' then Done("", s[1..])
    else
      match UnescapeChar(s)
      case Fail => Fail
      case Done(c, rest) =>
        match ParseStringBody(rest)
        case Fail => Fail
        case Done(cs, rest') => Done([c] + cs, rest')
  }

  lemma FloatPrefixIs(s: string)
    requires s != "" && FloatRun(if s[0] == '-' then s[1..] else s) > 0
    ensures var k := if s[0] == '-' then 1 + FloatRun(s[1..]) else FloatRun(s); IsFloatText(s[..k])
  {
    hide FloatRun;
    if s[0] == '-' {
      var k := FloatRun(s[1..]);
      FloatRunLocal(s[1..], "");
      assert s[..1 + k][1..] == s[1..][..k] + "";
    } else {
      FloatRunLocal(s, "");
      assert s[..FloatRun(s)] + "" == s[..FloatRun(s)];
    }
  }

  /** The float that `s` starts with. */
  function ParseFloat(s: string): (r: Parsed<Json>)
    requires s != "" && FloatRun(if s[0] == '-' then s[1..] else s) > 0
    ensures r.Done? ==> |r.rest| < |s|
  {
    var k := if s[0] == '-' then 1 + FloatRun(s[1..]) else FloatRun(s);
    if ContinuesNumber(s[k..]) then Fail else FloatPrefixIs(s); Done(Float(s[..k]), s[k..])
  }

  function ParseNumber(s: string): (r: Parsed<Json>)
    requires s != ""
    ensures r.Done? ==> |r.rest| < |s|
  {
    if FloatRun(if s[0] == '-' then s[1..] else s) > 0 then ParseFloat(s)
    else
    match ParseNat(if s[0] == '-' then s[1..] else s)
    case Fail => Fail
    case Done(n, rest) => Done(Num(if s[0] == '-' then 0 - n else n), rest)
  }

  /** A digit or a minus sign, but not the start of `-Infinity`. */
  predicate StartsNumber(s: string)
    requires s != ""
  {
    IsDigit(s[0]) || (s[0] == '-' && (|s| == 1 || s[1] != 'I'))
  }

  function ParseWord(s: string): (r: Parsed<Json>)
    ensures r.Done? ==> |r.rest| < |s|
  {
    if "null" <= s then Done(Null, s[4..])
    else if "true" <= s then Done(Bool(true), s[4..])
    else if "false" <= s then Done(Bool(false), s[5..])
    else if "NaN" <= s then Done(Float("NaN"), s[3..])
    else if "Infinity" <= s then Done(Float("Infinity"), s[8..])
    else if "-Infinity" <= s then Done(Float("-Infinity"), s[9..])
    else Fail
  }

  function ParseValue(s: string): (r: Parsed<Json>)
    ensures r.Done? ==> |r.rest| < |s|
    decreases |s|, 0
  {
    if s == "" then Fail
    else if s[0] == '\"' then
      match ParseStringBody(s[1..])
      case Fail => Fail
      case Done(cs, rest) => Done(Str(cs), rest)
    else if s[0] == '[' then
      var t := SkipSpace(s[1..]);
      if t != "" && t[0] == ']' then Done(Arr([]), t[1..])
      else
        match ParseItems(t)
        case Fail => Fail
        case Done(items, rest) => Done(Arr(items), rest)
    else if s[0] == '{' then
      var t := SkipSpace(s[1..]);
      if t != "" && t[0] == '}' then Done(Obj([]), t[1..])
      else
        match ParseMembers(t)
        case Fail => Fail
        case Done(ms, rest) => Done(Obj(Collapse(ms)), rest)
    else if StartsNumber(s) then ParseNumber(s)
    else ParseWord(s)
  }

  /** The elements of a non-empty array, closing bracket included. */
  function ParseItems(s: string): (r: Parsed<seq<Json>>)
    ensures r.Done? ==> |r.rest| < |s|
    decreases |s|, 1
  {
    match ParseValue(s)
    case Fail => Fail
    case Done(v, rest) =>
      var t := SkipSpace(rest);
      if t == "" then Fail
      else if t[0] == ']' then Done([v], t[1..])
      else if t[0] != ',' then Fail
      else
        match ParseItems(SkipSpace(t[1..]))
        case Fail => Fail
        case Done(vs, rest') => Done([v] + vs, rest')
  }

  /** One `"key": value`. */
  function ParseMember(s: string): (r: Parsed<Member>)
    ensures r.Done? ==> |r.rest| < |s|
    decreases |s|, 1
  {
    if s == "" || s[0] != '\"' then Fail
    else
      match ParseStringBody(s[1..])
      case Fail => Fail
      case Done(k, rest) =>
        var t := SkipSpace(rest);
        if t == "" || t[0] != ':' then Fail
        else
          match ParseValue(SkipSpace(t[1..]))
          case Fail => Fail
          case Done(v, rest') => Done(Member(k, v), rest')
  }

  /** The members of a non-empty object, closing brace included. */
  function ParseMembers(s: string): (r: Parsed<seq<Member>>)
    ensures r.Done? ==> |r.rest| < |s|
    decreases |s|, 2
  {
    match ParseMember(s)
    case Fail => Fail
    case Done(m, rest) =>
      var t := SkipSpace(rest);
      if t == "" then Fail
      else if t[0] == '}' then Done([m], t[1..])
      else if t[0] != ',' then Fail
      else
        match ParseMembers(SkipSpace(t[1..]))
        case Fail => Fail
        case Done(ms, rest') => Done([m] + ms, rest')
  }

  /** `json.loads`: one value with nothing but white space around it. */
  function Parse(s: string): Option<Json> {
    match ParseValue(SkipSpace(s))
    case Fail => None
    case Done(v, rest) => if SkipSpace(rest) == "" then Some(v) else None
  }
}
