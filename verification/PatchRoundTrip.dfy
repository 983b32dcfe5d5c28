/** Reading back a printed patch set. */
module PatchRoundTrip {
  import opened Basics
  import opened PatchText

  predicate Plain(s: string) {
    '\n' !in s
  }

  /** A removed or added line that looks like a file name line once its sign is put in front. */
  predicate Ambiguous(l: Line) {
    (l.kind == Src && Starts(l.text, "-- ")) || (l.kind == Dst && Starts(l.text, "++ "))
  }

  predicate PlainLine(l: Line) {
    Typed(l) && Plain(l.text)
  }

  lemma StartsCons(c: char, s: string, d: char, prefix: string)
    ensures Starts([c] + s, [d] + prefix) <==> c == d && Starts(s, prefix)
  {
    if |prefix| <= |s| {
      assert ([c] + s)[..1 + |prefix|] == [c] + s[..|prefix|];
      if c == d && [c] + s[..|prefix|] == [d] + prefix {
        assert s[..|prefix|] == ([c] + s[..|prefix|])[1..] == ([d] + prefix)[1..] == prefix;
      }
      if Starts([c] + s, [d] + prefix) {
        assert ([c] + s)[0] == ([d] + prefix)[0];
      }
    }
  }

  lemma StartsEnd(s: string, c: char, prefix: string)
    requires c !in prefix
    ensures Starts(s + [c], prefix) <==> Starts(s, prefix)
  {
    if |prefix| <= |s| {
      assert (s + [c])[..|prefix|] == s[..|prefix|];
    } else if |prefix| == |s| + 1 {
      assert (s + [c])[..|prefix|] == s + [c];
      assert (s + [c])[|s|] == c;
    }
  }

  /** The sign in front of a line decides which pattern can match. */
  lemma Signed(c: char, text: string)
    requires Plain(text)
    ensures var s := [c] + text + "\n";
      && After(s, "-") == (if c == '-' then Some(text) else None)
      && After(s, "+") == (if c == '+' then Some(text) else None)
      && After(s, " ") == (if c == ' ' then Some(text) else None)
      && (Starts(s, "--- ") <==> c == '-' && Starts(text, "-- "))
      && (Starts(s, "+++ ") <==> c == '+' && Starts(text, "++ "))
      && (c != '@' ==> ReadHeader(s) == None)
  {
    var end := text + "\n";
    var s := [c] + text + "\n";
    assert s == [c] + end && s[1..] == end;
    assert "-" == ['-'] + "" && "+" == ['+'] + "" && " " == [' '] + "";
    StartsCons(c, end, '-', "");
    StartsCons(c, end, '+', "");
    StartsCons(c, end, ' ', "");
    assert "--- " == ['-'] + "-- " && "+++ " == ['+'] + "++ " && "@@ -" == ['@'] + "@ -";
    StartsCons(c, end, '-', "-- ");
    StartsCons(c, end, '+', "++ ");
    StartsCons(c, end, '@', "@ -");
    StartsEnd(text, '\n', "-- ");
    StartsEnd(text, '\n', "++ ");
  }

  /** A printed line read back. */
  lemma LineBack(l: Line)
    requires PlainLine(l)
    ensures Ambiguous(l) ==> !Classify(LineText(l)).Text?
    ensures !Ambiguous(l) ==> Classify(LineText(l)) == Text(l)
  {
    match l.kind
    case Src => Signed('-', l.text);
    case Dst => Signed('+', l.text);
    case Both => Signed(' ', l.text);
  }

  lemma SrcNameBack(name: string)
    requires Plain(name)
    ensures Classify("--- " + name + "\n") == SrcFile(name)
  {
    assert ("--- " + name + "\n")[4..] == name + "\n";
  }

  lemma DstNameBack(name: string)
    requires Plain(name)
    ensures Classify("+++ " + name + "\n") == DstFile(name)
  {
    var s := "+++ " + name + "\n";
    assert s[4..] == name + "\n";
    assert s[0] == '+' && "--- "[0] == '-';
  }

  lemma {:induction false} LeadingOf(digits: string, rest: string)
    requires forall c | c in digits :: IsDigit(c)
    requires rest == [] || !IsDigit(rest[0])
    ensures Leading(digits + rest) == |digits|
  {
    if digits == [] {
      assert digits + rest == rest;
    } else {
      LeadingOf(digits[1..], rest);
      assert (digits + rest)[1..] == digits[1..] + rest;
    }
  }

  lemma NumberBack(n: nat, rest: string)
    requires rest == [] || !IsDigit(rest[0])
    ensures Number(Decimal(n) + rest) == Some((n, rest))
  {
    LeadingOf(Decimal(n), rest);
    ValueOfDecimal(n);
    assert (Decimal(n) + rest)[..|Decimal(n)|] == Decimal(n);
    assert (Decimal(n) + rest)[|Decimal(n)|..] == rest;
  }

  lemma SideParts(token: string, pos: string, len: string, rest: string)
    ensures token + pos + "," + len + rest == token + (pos + ("," + (len + rest)))
  {}

  lemma SideBack(token: string, pos: nat, len: nat, rest: string)
    requires rest == [] || !IsDigit(rest[0])
    ensures Side(SideText(token, pos, len) + rest, token) == Some((pos, len, rest))
  {
    var s2 := Decimal(len) + rest;
    var s1 := "," + s2;
    SideParts(token, Decimal(pos), Decimal(len), rest);
    NumberBack(pos, s1);
    NumberBack(len, rest);
  }

  /** A printed chunk header read back: both positions, and the counts are the numbers of lines of each side. */
  lemma HeaderRead(c: Chunk)
    ensures ReadHeader(HeaderText(c)) == Some(Header(c.srcPos, |SrcSide(c.lines)|, c.dstPos, |DstSide(c.lines)|))
  {
    var end := " @@\n";
    var second := SideText(" +", c.dstPos, |DstSide(c.lines)|) + end;
    assert HeaderText(c) == SideText("@@ -", c.srcPos, |SrcSide(c.lines)|) + second;
    SideBack("@@ -", c.srcPos, |SrcSide(c.lines)|, second);
    SideBack(" +", c.dstPos, |DstSide(c.lines)|, end);
  }

  lemma NoFileName(s: string)
    requires s != [] && s[0] == '@'
    ensures After(s, "--- ") == None && After(s, "+++ ") == None
  {
    assert "--- "[0] == '-' && "+++ "[0] == '+';
  }

  lemma HeaderBack(c: Chunk)
    ensures Classify(HeaderText(c)) == ChunkStart(c.srcPos, c.dstPos)
  {
    HeaderRead(c);
    NoFileName(HeaderText(c));
  }

  // ----- clean patch sets come back

  lemma {:induction false} RunConcat(st: State, a: seq<string>, b: seq<string>)
    requires st.Valid()
    ensures Run(st, a + b) == if Run(st, a).Ok? then Run(Run(st, a).value, b) else Error
    decreases |a|
  {
    if a == [] {
      assert a + b == b;
    } else {
      assert (a + b)[0] == a[0] && (a + b)[1..] == a[1..] + b;
      var next := Step(st, Classify(a[0]));
      if next.Ok? {
        RunConcat(next.value, a[1..], b);
      }
    }
  }

  lemma RunMore(st: State, a: seq<string>, s: string)
    requires st.Valid()
    ensures Run(st, a + [s]) == if Run(st, a).Ok? then Step(Run(st, a).value, Classify(s)) else Error
  {
    RunConcat(st, a, [s]);
    if Run(st, a).Ok? {
      var next := Step(Run(st, a).value, Classify(s));
      assert [s][1..] == [];
    }
  }

  lemma LastOff<T>(s: seq<T>)
    requires s != []
    ensures s == s[..|s| - 1] + [s[|s| - 1]]
  {}

  predicate CleanLines(lines: seq<Line>) {
    forall l | l in lines :: PlainLine(l) && !Ambiguous(l)
  }

  /** The state with chunk `c` the current one, last of the last patch. */
  function Within(front: seq<Patch>, p: Patch, c: Chunk): State {
    State(front + [AddChunk(p, c)], Some(|front|))
  }

  lemma {:induction false} LinesBack(front: seq<Patch>, p: Patch, c: Chunk)
    requires CleanLines(c.lines)
    ensures Run(Within(front, p, c.(lines := [])), LineTexts(c.lines)) == Ok(Within(front, p, c))
    decreases |c.lines|
  {
    if c.lines != [] {
      var n := |c.lines| - 1;
      LinesBack(front, p, c.(lines := c.lines[..n]));
      LineReadBack(Within(front, p, c.(lines := [])), LineTexts(c.lines[..n]), front, p, c.(lines := c.lines[..n]),
                   c.lines[n]);
      LastOff(c.lines);
    }
  }

  lemma LineReadBack(st: State, texts: seq<string>, front: seq<Patch>, p: Patch, c: Chunk, l: Line)
    requires st.Valid() && Run(st, texts) == Ok(Within(front, p, c)) && PlainLine(l) && !Ambiguous(l)
    ensures Run(st, texts + [LineText(l)]) == Ok(Within(front, p, c.(lines := c.lines + [l])))
  {
    LineBack(l);
    RunMore(st, texts, LineText(l));
    LineAdded(front, p, c, l);
  }

  lemma LineAdded(front: seq<Patch>, p: Patch, c: Chunk, l: Line)
    ensures Step(Within(front, p, c), Text(l)) == Ok(Within(front, p, c.(lines := c.lines + [l])))
  {
    var q := AddChunk(p, c);
    assert AddLine(q, l) == AddChunk(p, c.(lines := c.lines + [l]));
    assert (front + [q])[|front| := AddLine(q, l)] == front + [AddLine(q, l)];
  }

  predicate CleanChunks(chunks: seq<Chunk>) {
    forall c | c in chunks :: CleanLines(c.lines)
  }

  function Read(front: seq<Patch>, p: Patch, at: Option<nat>): State {
    State(front + [p], if p.chunks == [] then at else Some(|front|))
  }

  lemma {:induction false} ChunksBack(front: seq<Patch>, p: Patch, at: Option<nat>)
    requires CleanChunks(p.chunks) && State(front, at).Valid()
    ensures Run(Read(front, p.(chunks := []), at), ChunkTexts(p.chunks)) == Ok(Read(front, p, at))
    decreases |p.chunks|
  {
    if p.chunks != [] {
      var n := |p.chunks| - 1;
      ChunksBack(front, p.(chunks := p.chunks[..n]), at);
      ChunkReadBack(Read(front, p.(chunks := []), at), ChunkTexts(p.chunks[..n]), front, p.(chunks := p.chunks[..n]),
                    at, p.chunks[n]);
      LastOff(p.chunks);
    }
  }

  lemma ChunkReadBack(st: State, texts: seq<string>, front: seq<Patch>, p: Patch, at: Option<nat>, c: Chunk)
    requires st.Valid() && Run(st, texts) == Ok(Read(front, p, at)) && State(front, at).Valid() && CleanLines(c.lines)
    ensures Run(st, texts + [HeaderText(c)] + LineTexts(c.lines)) == Ok(Read(front, AddChunk(p, c), at))
  {
    HeaderBack(c);
    RunMore(st, texts, HeaderText(c));
    ChunkAdded(front, p, at, c);
    RunConcat(st, texts + [HeaderText(c)], LineTexts(c.lines));
    LinesBack(front, p, c);
  }

  lemma ChunkAdded(front: seq<Patch>, p: Patch, at: Option<nat>, c: Chunk)
    requires State(front, at).Valid()
    ensures Step(Read(front, p, at), ChunkStart(c.srcPos, c.dstPos)) == Ok(Within(front, p, c.(lines := [])))
  {
    var c' := Chunk(c.srcPos, c.dstPos, []);
    assert (front + [p])[|front| := AddChunk(p, c')] == front + [AddChunk(p, c')];
  }

  predicate CleanPatch(p: Patch) {
    Plain(p.src) && Plain(p.dst) && CleanChunks(p.chunks)
  }

  lemma PatchBack(front: seq<Patch>, p: Patch, at: Option<nat>)
    requires CleanPatch(p) && State(front, at).Valid()
    ensures Run(State(front, at), PatchTexts(p)) == Ok(Read(front, p, at))
  {
    var st, names := State(front, at), ["--- " + p.src + "\n", "+++ " + p.dst + "\n"];
    SrcNameBack(p.src);
    DstNameBack(p.dst);
    RunMore(st, [], names[0]);
    RunMore(st, [names[0]], names[1]);
    assert [] + [names[0]] == [names[0]] && [names[0]] + [names[1]] == names;
    NamesAdded(front, p, at);
    RunConcat(st, names, ChunkTexts(p.chunks));
    ChunksBack(front, p, at);
  }

  lemma NamesAdded(front: seq<Patch>, p: Patch, at: Option<nat>)
    requires State(front, at).Valid()
    ensures var first := Step(State(front, at), SrcFile(p.src));
      first.Ok? && Step(first.value, DstFile(p.dst)) == Ok(Read(front, p.(chunks := []), at))
  {
    var named := Patch(p.src, "", []);
    assert (front + [named])[|front| := named.(dst := p.dst)] == front + [p.(chunks := [])];
  }

  predicate Clean(ps: seq<Patch>) {
    forall p | p in ps :: CleanPatch(p)
  }

  lemma {:induction false} PatchesBack(ps: seq<Patch>) returns (at: Option<nat>)
    requires Clean(ps)
    ensures Run(State([], None), Texts(ps)) == Ok(State(ps, at)) && State(ps, at).Valid()
  {
    if ps == [] {
      at := None;
    } else {
      var front, p := ps[..|ps| - 1], ps[|ps| - 1];
      var before := PatchesBack(front);
      at := Read(front, p, before).at;
      PatchReadBack(State([], None), Texts(front), front, p, before);
      LastOff(ps);
    }
  }

  lemma PatchReadBack(st: State, texts: seq<string>, front: seq<Patch>, p: Patch, at: Option<nat>)
    requires st.Valid() && Run(st, texts) == Ok(State(front, at)) && State(front, at).Valid() && CleanPatch(p)
    ensures Run(st, texts + PatchTexts(p)) == Ok(Read(front, p, at))
  {
    RunConcat(st, texts, PatchTexts(p));
    PatchBack(front, p, at);
  }

  // ----- others do not

  predicate PlainLines(lines: seq<Line>) {
    forall l | l in lines :: PlainLine(l)
  }

  predicate PlainChunks(chunks: seq<Chunk>) {
    forall c | c in chunks :: PlainLines(c.lines)
  }

  predicate PlainPatch(p: Patch) {
    Plain(p.src) && Plain(p.dst) && PlainChunks(p.chunks)
  }

  /** All lines have a type, and no name or text has a line break. */
  predicate PlainPatches(ps: seq<Patch>) {
    forall p | p in ps :: PlainPatch(p)
  }

  function TextCount(texts: seq<string>): nat {
    if texts == [] then 0 else TextCount(texts[..|texts| - 1]) + if Classify(texts[|texts| - 1]).Text? then 1 else 0
  }

  function ChunkSize(chunks: seq<Chunk>): nat {
    if chunks == [] then 0 else ChunkSize(chunks[..|chunks| - 1]) + |chunks[|chunks| - 1].lines|
  }

  function Size(ps: seq<Patch>): nat {
    if ps == [] then 0 else Size(ps[..|ps| - 1]) + ChunkSize(ps[|ps| - 1].chunks)
  }

  lemma {:induction false} TextCountConcat(a: seq<string>, b: seq<string>)
    ensures TextCount(a + b) == TextCount(a) + TextCount(b)
  {
    if b == [] {
      assert a + b == a;
    } else {
      TextCountConcat(a, b[..|b| - 1]);
      assert (a + b)[..|a + b| - 1] == a + b[..|b| - 1];
    }
  }

  lemma {:induction false} SizeUpdated(ps: seq<Patch>, i: nat, p: Patch)
    requires i < |ps|
    ensures Size(ps[i := p]) == Size(ps) - ChunkSize(ps[i].chunks) + ChunkSize(p.chunks)
  {
    var n := |ps| - 1;
    if i < n {
      SizeUpdated(ps[..n], i, p);
      assert ps[i := p][..n] == ps[..n][i := p];
    } else {
      assert ps[i := p][..n] == ps[..n];
    }
  }

  /** Reading a line adds one line to the patch set if it is a text line and none otherwise. */
  lemma StepSize(st: State, t: Token)
    requires st.Valid() && Step(st, t).Ok?
    ensures Size(Step(st, t).value.patches) == Size(st.patches) + if t.Text? then 1 else 0
  {
    var n := |st.patches|;
    match t
    case SrcFile(name) =>
      assert (st.patches + [Patch(name, "", [])])[..n] == st.patches;
    case DstFile(name) =>
      SizeUpdated(st.patches, n - 1, st.patches[n - 1].(dst := name));
    case ChunkStart(srcPos, dstPos) =>
      SizeUpdated(st.patches, n - 1, AddChunk(st.patches[n - 1], Chunk(srcPos, dstPos, [])));
    case Text(l) =>
      SizeUpdated(st.patches, st.at.value, AddLine(st.patches[st.at.value], l));
  }

  lemma {:induction false} RunSize(st: State, texts: seq<string>)
    requires st.Valid() && Run(st, texts).Ok?
    ensures Size(Run(st, texts).value.patches) == Size(st.patches) + TextCount(texts)
    decreases |texts|
  {
    if texts != [] {
      var front, last := texts[..|texts| - 1], texts[|texts| - 1];
      LastOff(texts);
      RunMore(st, front, last);
      RunSize(st, front);
      StepSize(Run(st, front).value, Classify(last));
    }
  }

  /** A printed line counts as a text line unless it is ambiguous. */
  lemma {:induction false} LinesPrinted(lines: seq<Line>)
    requires PlainLines(lines)
    ensures TextCount(LineTexts(lines)) <= |lines|
    ensures TextCount(LineTexts(lines)) == |lines| <==> CleanLines(lines)
  {
    if lines != [] {
      var front, l := lines[..|lines| - 1], lines[|lines| - 1];
      LinesPrinted(front);
      LineBack(l);
      OneMoreText(LineTexts(front), LineText(l));
      LastOff(lines);
    }
  }

  lemma OneMoreText(texts: seq<string>, s: string)
    ensures TextCount(texts + [s]) == TextCount(texts) + if Classify(s).Text? then 1 else 0
  {
    assert (texts + [s])[..|texts|] == texts;
  }

  lemma {:induction false} ChunksPrinted(chunks: seq<Chunk>)
    requires PlainChunks(chunks)
    ensures TextCount(ChunkTexts(chunks)) <= ChunkSize(chunks)
    ensures TextCount(ChunkTexts(chunks)) == ChunkSize(chunks) <==> CleanChunks(chunks)
  {
    if chunks != [] {
      var front, c := chunks[..|chunks| - 1], chunks[|chunks| - 1];
      ChunksPrinted(front);
      HeaderBack(c);
      OneMoreText(ChunkTexts(front), HeaderText(c));
      LinesPrinted(c.lines);
      TextCountConcat(ChunkTexts(front) + [HeaderText(c)], LineTexts(c.lines));
      LastOff(chunks);
    }
  }

  lemma PatchPrinted(p: Patch)
    requires PlainPatch(p)
    ensures TextCount(PatchTexts(p)) <= ChunkSize(p.chunks)
    ensures TextCount(PatchTexts(p)) == ChunkSize(p.chunks) <==> CleanPatch(p)
  {
    var src, dst := "--- " + p.src + "\n", "+++ " + p.dst + "\n";
    SrcNameBack(p.src);
    DstNameBack(p.dst);
    OneMoreText([], src);
    OneMoreText([src], dst);
    assert [] + [src] == [src] && [src] + [dst] == [src, dst];
    TextCountConcat([src, dst], ChunkTexts(p.chunks));
    ChunksPrinted(p.chunks);
  }

  lemma {:induction false} PatchesPrinted(ps: seq<Patch>)
    requires PlainPatches(ps)
    ensures TextCount(Texts(ps)) <= Size(ps)
    ensures TextCount(Texts(ps)) == Size(ps) <==> Clean(ps)
  {
    if ps != [] {
      var front, p := ps[..|ps| - 1], ps[|ps| - 1];
      PatchesPrinted(front);
      PatchPrinted(p);
      TextCountConcat(Texts(front), PatchTexts(p));
      LastOff(ps);
    }
  }

  /** Reading a printed patch set gives it back exactly if no removed line starts with "-- " and no
      added line with "++ ". */
  lemma RoundTrip(ps: seq<Patch>)
    requires PlainPatches(ps)
    ensures Parse(Texts(ps)) == Ok(ps) <==> Clean(ps)
  {
    if Clean(ps) {
      var at := PatchesBack(ps);
    }
    if Parse(Texts(ps)) == Ok(ps) {
      RunSize(State([], None), Texts(ps));
      PatchesPrinted(ps);
    }
  }

  // ----- through a file

  function Written(texts: seq<string>): string {
    if texts == [] then [] else texts[0] + Written(texts[1..])
  }

  /** The length of the first line, with its line break. */
  function FirstLine(s: string): (n: nat)
    requires s != []
    ensures 0 < n <= |s|
  {
    if s[0] == '\n' || |s| == 1 then 1 else 1 + FirstLine(s[1..])
  }

  /** The lines a file with these contents is read as. */
  function ReadLines(s: string): seq<string> {
    if s == [] then [] else [s[..FirstLine(s)]] + ReadLines(s[FirstLine(s)..])
  }

  predicate IsLine(s: string) {
    s != [] && s[|s| - 1] == '\n' && Plain(s[..|s| - 1])
  }

  lemma {:induction false} FirstLineOf(s: string, rest: string)
    requires IsLine(s)
    ensures FirstLine(s + rest) == |s|
  {
    if |s| == 1 {
      assert (s + rest)[0] == '\n';
    } else {
      assert s[0] in s[..|s| - 1];
      assert s[1..][..|s[1..]| - 1] == s[..|s| - 1][1..];
      FirstLineOf(s[1..], rest);
      assert (s + rest)[1..] == s[1..] + rest;
    }
  }

  lemma {:induction false} LinesComeBack(texts: seq<string>)
    requires forall s | s in texts :: IsLine(s)
    ensures ReadLines(Written(texts)) == texts
  {
    if texts != [] {
      var s, rest := texts[0], Written(texts[1..]);
      assert s in texts;
      FirstLineOf(s, rest);
      assert (s + rest)[..|s|] == s && (s + rest)[|s|..] == rest;
      LinesComeBack(texts[1..]);
    }
  }

  lemma LineOf(s: string)
    requires Plain(s)
    ensures IsLine(s + "\n")
  {
    assert (s + "\n")[..|s|] == s;
  }

  lemma {:induction false} LineTextsAreLines(lines: seq<Line>)
    requires PlainLines(lines)
    ensures forall s | s in LineTexts(lines) :: IsLine(s)
  {
    if lines != [] {
      var l := lines[|lines| - 1];
      assert PlainLine(l);
      LineTextsAreLines(lines[..|lines| - 1]);
      LineOf((match l.kind case Src => "-" case Dst => "+" case _ => " ") + l.text);
    }
  }

  lemma HeaderIsLine(c: Chunk)
    ensures IsLine(HeaderText(c))
  {
    var s := SideText("@@ -", c.srcPos, |SrcSide(c.lines)|) + SideText(" +", c.dstPos, |DstSide(c.lines)|) + " @@";
    assert HeaderText(c) == s + "\n";
    LineOf(s);
  }

  lemma {:induction false} ChunkTextsAreLines(chunks: seq<Chunk>)
    requires PlainChunks(chunks)
    ensures forall s | s in ChunkTexts(chunks) :: IsLine(s)
  {
    if chunks != [] {
      ChunkTextsAreLines(chunks[..|chunks| - 1]);
      HeaderIsLine(chunks[|chunks| - 1]);
      LineTextsAreLines(chunks[|chunks| - 1].lines);
    }
  }

  lemma {:induction false} TextsAreLines(ps: seq<Patch>)
    requires PlainPatches(ps)
    ensures forall s | s in Texts(ps) :: IsLine(s)
  {
    if ps != [] {
      var p := ps[|ps| - 1];
      assert PlainPatch(p);
      TextsAreLines(ps[..|ps| - 1]);
      LineOf("--- " + p.src);
      LineOf("+++ " + p.dst);
      ChunkTextsAreLines(p.chunks);
    }
  }

  /** The same for a patch set written to a file and read from it. */
  lemma FileRoundTrip(ps: seq<Patch>)
    requires PlainPatches(ps)
    ensures Parse(ReadLines(Written(Texts(ps)))) == Ok(ps) <==> Clean(ps)
  {
    TextsAreLines(ps);
    LinesComeBack(Texts(ps));
    RoundTrip(ps);
  }
}
