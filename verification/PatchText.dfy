/** Unified diffs as values: what utils/check-style.py writes for a patch set and how it reads one line by line. */
module PatchText {
  import opened Basics

  datatype Result<T> = Ok(value: T) | Error

  /** A new line object has no type yet. */
  datatype Kind = Unset | Src | Dst | Both

  datatype Line = Line(kind: Kind, text: string) {
    predicate IsSrc() { kind == Src || kind == Both }

    predicate IsDst() { kind == Dst || kind == Both }
  }

  datatype Chunk = Chunk(srcPos: nat, dstPos: nat, lines: seq<Line>)

  datatype Patch = Patch(src: string, dst: string, chunks: seq<Chunk>)

  // ----- numbers

  function Digit(d: nat): char
    requires d < 10
  {
    '0' + d as char
  }

  function Decimal(n: nat): (s: string)
    ensures s != [] && forall c | c in s :: IsDigit(c)
  {
    if n < 10 then [Digit(n)] else Decimal(n / 10) + [Digit(n % 10)]
  }

  predicate IsDigit(c: char) {
    '0' <= c <= '9'
  }

  function DigitValue(c: char): nat
    requires IsDigit(c)
  {
    c as int - '0' as int
  }

  function Value(s: string): nat
    requires forall c | c in s :: IsDigit(c)
  {
    if s == [] then 0
    else
      assert s[|s| - 1] in s;
      10 * Value(s[..|s| - 1]) + DigitValue(s[|s| - 1])
  }

  lemma {:induction false} ValueOfDecimal(n: nat)
    ensures Value(Decimal(n)) == n
  {
    if n >= 10 {
      ValueOfDecimal(n / 10);
      assert Decimal(n)[..|Decimal(n)| - 1] == Decimal(n / 10);
    }
  }

  /** How many digits `s` starts with. */
  function Leading(s: string): (n: nat)
    ensures n <= |s| && forall c | c in s[..n] :: IsDigit(c)
  {
    if s == [] || !IsDigit(s[0]) then 0 else (
      assert s[..1 + Leading(s[1..])] == [s[0]] + s[1..][..Leading(s[1..])];
      1 + Leading(s[1..])
    )
  }

  // ----- regular expressions

  predicate Starts(s: string, prefix: string) {
    |prefix| <= |s| && s[..|prefix|] == prefix
  }

  /** What `(.*)$` matches: a rest without line breaks, except for one at its end, which does not count. */
  function Rest(s: string): Option<string> {
    if s == [] then Some(s)
    else
      var front := s[..|s| - 1];
      if '\n' in front then None else Some(if s[|s| - 1] == '\n' then front else s)
  }

  /** What the prefix followed by `(.*)$` captures. */
  function After(s: string, prefix: string): Option<string> {
    if Starts(s, prefix) then Rest(s[|prefix|..]) else None
  }

  /** One or more digits and the text after them. */
  function Number(s: string): Option<(nat, string)> {
    var n := Leading(s);
    if n == 0 then None else Some((Value(s[..n]), s[n..]))
  }

  function Expect(s: string, token: string): Option<string> {
    if Starts(s, token) then Some(s[|token|..]) else None
  }

  /** Position and count of the source side, then of the destination side. */
  datatype Header = Header(srcPos: nat, srcLen: nat, dstPos: nat, dstLen: nat)

  /** The numbers of a chunk header; whatever follows it on the line does not matter. */
  function ReadHeader(s: string): Option<Header> {
    match Side(s, "@@ -")
    case None => None
    case Some((srcPos, srcLen, rest)) => match Side(rest, " +")
    case None => None
    case Some((dstPos, dstLen, end)) =>
      if Starts(end, " @@") then Some(Header(srcPos, srcLen, dstPos, dstLen)) else None
  }

  /** The token, a position, a comma and a count. */
  function Side(s: string, token: string): Option<(nat, nat, string)> {
    match Expect(s, token)
    case None => None
    case Some(s1) => match Number(s1)
    case None => None
    case Some((pos, s2)) => match Expect(s2, ",")
    case None => None
    case Some(s3) => match Number(s3)
    case None => None
    case Some((len, rest)) => Some((pos, len, rest))
  }

  // ----- reading

  datatype Token =
    | SrcFile(name: string)
    | DstFile(name: string)
    | ChunkStart(srcPos: nat, dstPos: nat)
    | Text(line: Line)
    | Junk

  /** The patterns are tried in this order. */
  function Classify(s: string): Token {
    match After(s, "--- ")
    case Some(name) => SrcFile(name)
    case None => match After(s, "+++ ")
    case Some(name) => DstFile(name)
    case None => ClassifyBody(s)
  }

  function ClassifyBody(s: string): Token {
    match ReadHeader(s)
    case Some(h) => ChunkStart(h.srcPos, h.dstPos)
    case None => ClassifyText(s)
  }

  function ClassifyText(s: string): Token {
    match After(s, "-")
    case Some(text) => Text(Line(Src, text))
    case None => match After(s, "+")
    case Some(text) => Text(Line(Dst, text))
    case None => match After(s, " ")
    case Some(text) => Text(Line(Both, text))
    case None => Junk
  }

  /** The patches read so far; the current patch is the last one, the current chunk the last one of patch number
      `at`. */
  datatype State = State(patches: seq<Patch>, at: Option<nat>) {
    predicate Valid() {
      at.Some? ==> at.value < |patches| && patches[at.value].chunks != []
    }
  }

  function AddChunk(p: Patch, c: Chunk): Patch {
    p.(chunks := p.chunks + [c])
  }

  function AddLine(p: Patch, l: Line): Patch
    requires p.chunks != []
  {
    var n := |p.chunks| - 1;
    p.(chunks := p.chunks[n := p.chunks[n].(lines := p.chunks[n].lines + [l])])
  }

  /** One line: a file name or chunk needs a current patch, a text line a current chunk, even one of an earlier
      patch. */
  function Step(st: State, t: Token): (r: Result<State>)
    requires st.Valid()
    ensures r.Ok? ==> r.value.Valid()
  {
    var n := |st.patches|;
    match t
    case SrcFile(name) => Ok(State(st.patches + [Patch(name, "", [])], st.at))
    case DstFile(name) =>
      if n == 0 then Error
      else Ok(State(st.patches[n - 1 := st.patches[n - 1].(dst := name)], st.at))
    case ChunkStart(srcPos, dstPos) =>
      if n == 0 then Error
      else Ok(State(st.patches[n - 1 := AddChunk(st.patches[n - 1], Chunk(srcPos, dstPos, []))], Some(n - 1)))
    case Text(l) =>
      if st.at.None? then Error
      else Ok(State(st.patches[st.at.value := AddLine(st.patches[st.at.value], l)], st.at))
    case Junk => Error
  }

  function Run(st: State, lines: seq<string>): (r: Result<State>)
    requires st.Valid()
    ensures r.Ok? ==> r.value.Valid()
    decreases |lines|
  {
    if lines == [] then Ok(st)
    else match Step(st, Classify(lines[0]))
      case Ok(st') => Run(st', lines[1..])
      case Error => Error
  }

  function Parse(lines: seq<string>): Result<seq<Patch>> {
    match Run(State([], None), lines)
    case Ok(st) => Ok(st.patches)
    case Error => Error
  }

  // ----- writing

  predicate Typed(l: Line) {
    l.kind != Unset
  }

  function LineText(l: Line): string
    requires Typed(l)
  {
    (match l.kind case Src => "-" case Dst => "+" case _ => " ") + l.text + "\n"
  }

  function SrcSide(lines: seq<Line>): seq<Line> {
    if lines == [] then []
    else SrcSide(lines[..|lines| - 1]) + if lines[|lines| - 1].IsSrc() then [lines[|lines| - 1]] else []
  }

  function DstSide(lines: seq<Line>): seq<Line> {
    if lines == [] then []
    else DstSide(lines[..|lines| - 1]) + if lines[|lines| - 1].IsDst() then [lines[|lines| - 1]] else []
  }

  function SideText(token: string, pos: nat, len: nat): string {
    token + Decimal(pos) + "," + Decimal(len)
  }

  function HeaderText(c: Chunk): string {
    SideText("@@ -", c.srcPos, |SrcSide(c.lines)|) + SideText(" +", c.dstPos, |DstSide(c.lines)|) + " @@\n"
  }

  predicate TypedLines(lines: seq<Line>) {
    forall l | l in lines :: Typed(l)
  }

  predicate TypedChunks(chunks: seq<Chunk>) {
    forall c | c in chunks :: TypedLines(c.lines)
  }

  function LineTexts(lines: seq<Line>): seq<string>
    requires TypedLines(lines)
  {
    if lines == [] then [] else LineTexts(lines[..|lines| - 1]) + [LineText(lines[|lines| - 1])]
  }

  function ChunkTexts(chunks: seq<Chunk>): seq<string>
    requires TypedChunks(chunks)
  {
    if chunks == [] then []
    else
      var c := chunks[|chunks| - 1];
      ChunkTexts(chunks[..|chunks| - 1]) + [HeaderText(c)] + LineTexts(c.lines)
  }

  function PatchTexts(p: Patch): seq<string>
    requires TypedChunks(p.chunks)
  {
    ["--- " + p.src + "\n", "+++ " + p.dst + "\n"] + ChunkTexts(p.chunks)
  }

  predicate TypedPatches(ps: seq<Patch>) {
    forall p | p in ps :: TypedChunks(p.chunks)
  }

  function Texts(ps: seq<Patch>): seq<string>
    requires TypedPatches(ps)
  {
    if ps == [] then [] else Texts(ps[..|ps| - 1]) + PatchTexts(ps[|ps| - 1])
  }
}
