/** The patch objects of utils/check-style.py: their methods, and the loop that builds them from the lines of a diff. */
module PatchSet {
  import opened Basics
  import T = PatchText
  import opened R = PatchRoundTrip

  class PatchChunkLine {
    var kind: T.Kind
    var line: string

    constructor ()
      ensures View() == T.Line(T.Unset, "")
    {
      kind, line := T.Unset, "";
    }

    ghost function View(): T.Line
      reads this
    {
      T.Line(kind, line)
    }

    method SetSrc(text: string)
      modifies this
      ensures View() == T.Line(T.Src, text)
    {
      kind, line := T.Src, text;
    }

    method SetDst(text: string)
      modifies this
      ensures View() == T.Line(T.Dst, text)
    {
      kind, line := T.Dst, text;
    }

    method SetBoth(text: string)
      modifies this
      ensures View() == T.Line(T.Both, text)
    {
      kind, line := T.Both, text;
    }

    method IsSrc() returns (b: bool)
      ensures b == View().IsSrc()
    {
      b := kind == T.Src || kind == T.Both;
    }

    method IsDst() returns (b: bool)
      ensures b == View().IsDst()
    {
      b := kind == T.Dst || kind == T.Both;
    }

    /** Appends the line to the text of a file, or raises an exception if it has no type. */
    method Write(f: string) returns (r: T.Result<string>)
      ensures r == if T.Typed(View()) then T.Ok(f + T.LineText(View())) else T.Error
    {
      if kind == T.Src {
        r := T.Ok(f + ("-" + line + "\n"));
      } else if kind == T.Dst {
        r := T.Ok(f + ("+" + line + "\n"));
      } else if kind == T.Both {
        r := T.Ok(f + (" " + line + "\n"));
      } else {
        r := T.Error;
      }
    }
  }

  method NewLine(kind: T.Kind, text: string) returns (l: PatchChunkLine)
    requires kind != T.Unset
    ensures fresh(l) && l.View() == T.Line(kind, text)
  {
    l := new PatchChunkLine();
    if kind == T.Src {
      l.SetSrc(text);
    } else if kind == T.Dst {
      l.SetDst(text);
    } else {
      l.SetBoth(text);
    }
  }

  ghost function LineViews(lines: seq<PatchChunkLine>): (v: seq<T.Line>)
    reads lines
    ensures |v| == |lines| && forall i | 0 <= i < |lines| :: v[i] == lines[i].View()
  {
    if lines == [] then [] else LineViews(lines[..|lines| - 1]) + [lines[|lines| - 1].View()]
  }

  /** The line objects of one side, in order. */
  ghost function SrcLines(lines: seq<PatchChunkLine>): seq<PatchChunkLine>
    reads lines
  {
    if lines == [] then []
    else SrcLines(lines[..|lines| - 1]) + if lines[|lines| - 1].View().IsSrc() then [lines[|lines| - 1]] else []
  }

  ghost function DstLines(lines: seq<PatchChunkLine>): seq<PatchChunkLine>
    reads lines
  {
    if lines == [] then []
    else DstLines(lines[..|lines| - 1]) + if lines[|lines| - 1].View().IsDst() then [lines[|lines| - 1]] else []
  }

  lemma {:induction false} SrcLinesShow(lines: seq<PatchChunkLine>)
    ensures LineViews(SrcLines(lines)) == T.SrcSide(LineViews(lines))
  {
    if lines != [] {
      var front, last := lines[..|lines| - 1], lines[|lines| - 1];
      SrcLinesShow(front);
    }
  }

  lemma {:induction false} DstLinesShow(lines: seq<PatchChunkLine>)
    ensures LineViews(DstLines(lines)) == T.DstSide(LineViews(lines))
  {
    if lines != [] {
      var front, last := lines[..|lines| - 1], lines[|lines| - 1];
      DstLinesShow(front);
    }
  }

  class PatchChunk {
    const srcPos: nat
    const dstPos: nat
    var lines: seq<PatchChunkLine>

    constructor (srcPos: nat, dstPos: nat)
      ensures this.srcPos == srcPos && this.dstPos == dstPos && lines == []
    {
      this.srcPos, this.dstPos, lines := srcPos, dstPos, [];
    }

    ghost function View(): T.Chunk
      reads this, lines
    {
      T.Chunk(srcPos, dstPos, LineViews(lines))
    }

    method AddLine(line: PatchChunkLine)
      modifies this
      ensures lines == old(lines) + [line]
      ensures LineViews(lines) == old(LineViews(lines)) + [line.View()]
    {
      lines := lines + [line];
      assert lines[..|lines| - 1] == old(lines);
    }

    /** Makes a line of the given type and adds it. */
    method AddText(kind: T.Kind, text: string)
      requires kind != T.Unset
      modifies this
      ensures View() == old(View()).(lines := old(View()).lines + [T.Line(kind, text)])
      ensures |lines| == old(|lines|) + 1 && lines[..old(|lines|)] == old(lines) && fresh(lines[old(|lines|)])
    {
      var l := NewLine(kind, text);
      AddLine(l);
    }

    method Src() returns (src: seq<PatchChunkLine>)
      ensures src == SrcLines(lines) && LineViews(src) == T.SrcSide(View().lines)
    {
      src := [];
      for i := 0 to |lines|
        invariant src == SrcLines(lines[..i])
      {
        assert lines[..i + 1][..i] == lines[..i];
        var b := lines[i].IsSrc();
        if b {
          src := src + [lines[i]];
        }
      }
      assert lines[..|lines|] == lines;
      SrcLinesShow(lines);
    }

    method Dst() returns (dst: seq<PatchChunkLine>)
      ensures dst == DstLines(lines) && LineViews(dst) == T.DstSide(View().lines)
    {
      dst := [];
      for i := 0 to |lines|
        invariant dst == DstLines(lines[..i])
      {
        assert lines[..i + 1][..i] == lines[..i];
        var b := lines[i].IsDst();
        if b {
          dst := dst + [lines[i]];
        }
      }
      assert lines[..|lines|] == lines;
      DstLinesShow(lines);
    }

    method SrcLen() returns (n: nat)
      ensures n == |T.SrcSide(View().lines)|
    {
      var src := Src();
      n := |src|;
    }

    method DstLen() returns (n: nat)
      ensures n == |T.DstSide(View().lines)|
    {
      var dst := Dst();
      n := |dst|;
    }

    method Write(f: string) returns (r: T.Result<string>)
      ensures r == AfterChunk(f, View())
    {
      var srcLen := SrcLen();
      var dstLen := DstLen();
      var header := "@@ -" + T.Decimal(srcPos) + "," + T.Decimal(srcLen)
        + (" +" + T.Decimal(dstPos) + "," + T.Decimal(dstLen)) + " @@\n";
      r := WriteLines(f + header, lines);
      if T.TypedLines(View().lines) {
        WrittenAfter(f, header, T.LineTexts(View().lines));
      }
    }
  }

  /** The text of a file after a chunk is written to it. */
  ghost function AfterChunk(f: string, c: T.Chunk): T.Result<string> {
    if T.TypedLines(c.lines) then T.Ok(f + R.Written([T.HeaderText(c)] + T.LineTexts(c.lines))) else T.Error
  }

  lemma WrittenAfter(f: string, s: string, texts: seq<string>)
    ensures f + s + R.Written(texts) == f + R.Written([s] + texts)
  {
    assert ([s] + texts)[1..] == texts;
  }

  /** The loop that writes the lines of a chunk. */
  method WriteLines(f: string, lines: seq<PatchChunkLine>) returns (r: T.Result<string>)
    ensures r == if T.TypedLines(LineViews(lines)) then T.Ok(f + R.Written(T.LineTexts(LineViews(lines)))) else T.Error
  {
    var text := f;
    ghost var views := LineViews(lines);
    for i := 0 to |lines|
      invariant LinesWritten(f, views, i, text)
    {
      r := lines[i].Write(text);
      if r.Error? {
        assert views[i] in views;
        return;
      }
      OneMoreLine(f, views, i, text);
      text := r.value;
    }
    assert views[..|lines|] == views;
    r := T.Ok(text);
  }

  ghost predicate LinesWritten(f: string, views: seq<T.Line>, i: nat, text: string) {
    i <= |views| && T.TypedLines(views[..i]) && text == f + R.Written(T.LineTexts(views[..i]))
  }

  lemma OneMoreLine(f: string, views: seq<T.Line>, i: nat, text: string)
    requires i < |views| && LinesWritten(f, views, i, text) && T.Typed(views[i])
    ensures LinesWritten(f, views, i + 1, text + T.LineText(views[i]))
  {
    assert views[..i + 1][..i] == views[..i];
    LineJoins(f, T.LineTexts(views[..i]), T.LineText(views[i]));
  }

  lemma LineJoins(f: string, a: seq<string>, s: string)
    ensures f + R.Written(a) + s == f + R.Written(a + [s])
  {
    WrittenConcat(a, [s]);
    assert R.Written([s]) == s by { assert [s][1..] == []; }
    assert f + R.Written(a) + s == f + (R.Written(a) + s);
  }

  ghost function LinesOf(chunks: seq<PatchChunk>): set<PatchChunkLine>
    reads chunks
  {
    set c, l | c in chunks && l in c.lines :: l
  }

  ghost function ChunkViews(chunks: seq<PatchChunk>): (v: seq<T.Chunk>)
    reads chunks, LinesOf(chunks)
    ensures |v| == |chunks| && forall i | 0 <= i < |chunks| :: v[i] == chunks[i].View()
  {
    if chunks == [] then []
    else
      var c := chunks[|chunks| - 1];
      assert c in chunks && forall l | l in c.lines :: l in LinesOf(chunks);
      ChunkViews(chunks[..|chunks| - 1]) + [c.View()]
  }

  class Patch {
    var src: string
    var dst: string
    var chunks: seq<PatchChunk>

    constructor ()
      ensures src == "" && dst == "" && chunks == []
    {
      src, dst, chunks := "", "", [];
    }

    ghost function View(): T.Patch
      reads this, chunks, LinesOf(chunks)
    {
      T.Patch(src, dst, ChunkViews(chunks))
    }

    method SetSrc(name: string)
      modifies this`src
      ensures src == name
    {
      src := name;
    }

    method SetDst(name: string)
      modifies this`dst
      ensures dst == name
    {
      dst := name;
    }

    method AddChunk(chunk: PatchChunk)
      modifies this`chunks
      ensures chunks == old(chunks) + [chunk]
    {
      chunks := chunks + [chunk];
    }

    method Write(f: string) returns (r: T.Result<string>)
      ensures r == AfterPatch(f, old(View()))
    {
      var srcName, dstName := "--- " + src + "\n", "+++ " + dst + "\n";
      ghost var views := View().chunks;
      r := WriteChunks(f + srcName + dstName, chunks, views);
      ChunksWritten(f + srcName + dstName, views);
      if T.TypedChunks(views) {
        NamesFirst(f, srcName, dstName, T.ChunkTexts(views));
      }
    }
  }

  /** The text of a file after a patch is written to it: all its lines, if they have a type. */
  ghost function AfterPatch(f: string, p: T.Patch): T.Result<string> {
    if T.TypedChunks(p.chunks) then T.Ok(f + R.Written(T.PatchTexts(p))) else T.Error
  }

  lemma NamesFirst(f: string, s: string, t: string, texts: seq<string>)
    ensures f + s + t + R.Written(texts) == f + R.Written([s, t] + texts)
  {
    assert ([s, t] + texts)[1..] == [t] + texts && ([t] + texts)[1..] == texts;
  }

  /** The text of a file after the chunks are written to it one by one. */
  ghost function AfterChunks(f: string, chunks: seq<T.Chunk>): T.Result<string> {
    if chunks == [] then T.Ok(f)
    else match AfterChunks(f, chunks[..|chunks| - 1])
      case Ok(text) => AfterChunk(text, chunks[|chunks| - 1])
      case Error => T.Error
  }

  /** The loop that writes the chunks of a patch. */
  method WriteChunks(f: string, chunks: seq<PatchChunk>, ghost views: seq<T.Chunk>) returns (r: T.Result<string>)
    requires |views| == |chunks| && forall i | 0 <= i < |chunks| :: chunks[i].View() == views[i]
    ensures r == AfterChunks(f, views)
  {
    r := T.Ok(f);
    for i := 0 to |chunks|
      invariant forall j | 0 <= j < |chunks| :: chunks[j].View() == views[j]
      invariant r == AfterChunks(f, views[..i]) && r.Ok?
    {
      r := WriteNext(f, chunks[i], views, i, r.value);
      if r.Error? {
        return;
      }
    }
    assert views[..|chunks|] == views;
  }

  method WriteNext(ghost f: string, chunk: PatchChunk, ghost views: seq<T.Chunk>, ghost i: nat, text: string)
    returns (r: T.Result<string>)
    requires i < |views| && chunk.View() == views[i] && AfterChunks(f, views[..i]) == T.Ok(text)
    ensures r == AfterChunks(f, views[..i + 1])
    ensures r.Error? ==> AfterChunks(f, views) == T.Error
  {
    assert views[..i + 1][..i] == views[..i];
    r := chunk.Write(text);
    if r.Error? {
      ErrorStays(f, views, i + 1);
    }
  }

  lemma {:induction false} ErrorStays(f: string, views: seq<T.Chunk>, i: nat)
    requires i <= |views| && AfterChunks(f, views[..i]).Error?
    ensures AfterChunks(f, views).Error?
  {
    var n := |views| - 1;
    if i <= n {
      assert views[..n][..i] == views[..i];
      ErrorStays(f, views[..n], i);
    } else {
      assert views[..i] == views;
    }
  }

  /** It is what the file held and then all lines of the chunks, if all have a type. */
  lemma {:induction false} ChunksWritten(f: string, chunks: seq<T.Chunk>)
    ensures AfterChunks(f, chunks) == if T.TypedChunks(chunks) then T.Ok(f + R.Written(T.ChunkTexts(chunks)))
      else T.Error
  {
    if chunks == [] {
      assert f + [] == f;
    } else {
      var front, c := chunks[..|chunks| - 1], chunks[|chunks| - 1];
      ChunksWritten(f, front);
      if T.TypedChunks(front) && T.TypedLines(c.lines) {
        ChunkJoins(f, T.ChunkTexts(front), T.HeaderText(c), T.LineTexts(c.lines));
      }
    }
  }

  lemma ChunkJoins(f: string, a: seq<string>, s: string, b: seq<string>)
    ensures f + R.Written(a) + R.Written([s] + b) == f + R.Written(a + [s] + b)
  {
    assert a + [s] + b == a + ([s] + b);
    WrittenConcat(a, [s] + b);
    assert f + R.Written(a) + R.Written([s] + b) == f + (R.Written(a) + R.Written([s] + b));
  }

  lemma {:induction false} WrittenConcat(a: seq<string>, b: seq<string>)
    ensures R.Written(a + b) == R.Written(a) + R.Written(b)
  {
    if a == [] {
      assert a + b == b;
    } else {
      WrittenConcat(a[1..], b);
      assert a + b == [a[0]] + (a[1..] + b);
      FirstWritten(a[0], a[1..] + b);
      Regroup(a[0], R.Written(a[1..]), R.Written(b));
    }
  }

  lemma FirstWritten(s: string, texts: seq<string>)
    ensures R.Written([s] + texts) == s + R.Written(texts)
  {
    assert ([s] + texts)[1..] == texts;
  }

  lemma Regroup(a: string, b: string, c: string)
    ensures a + (b + c) == a + b + c
  {}

  // ----- reading

  /** The objects built so far are in state `st`; `owner` tells where each chunk object is, so that no two places share
      one. */
  ghost predicate Holds(patchset: seq<Patch>, st: T.State, owner: map<PatchChunk, (nat, nat)>, patch: Patch?,
                        chunk: PatchChunk?)
    reads *
  {
    && st.Valid()
    && |patchset| == |st.patches|
    && (forall i, j | 0 <= i < j < |patchset| :: patchset[i] != patchset[j])
    && (forall j | 0 <= j < |patchset| :: Shown(patchset[j], st.patches[j], owner, j))
    && patch == (if patchset == [] then null else patchset[|patchset| - 1])
    && chunk == (if st.at.None? then null else LastChunk(patchset[st.at.value]))
  }

  ghost function LastChunk(p: Patch): PatchChunk?
    reads p
  {
    if p.chunks == [] then null else p.chunks[|p.chunks| - 1]
  }

  /** Patch object number `j` and its chunks show what they should. */
  ghost predicate Shown(p: Patch, v: T.Patch, owner: map<PatchChunk, (nat, nat)>, j: nat)
    reads *
  {
    && p.src == v.src && p.dst == v.dst && |p.chunks| == |v.chunks|
    && forall b: nat | b < |p.chunks| :: ChunkShown(p.chunks[b], v.chunks[b], owner, j, b)
  }

  ghost predicate ChunkShown(c: PatchChunk, v: T.Chunk, owner: map<PatchChunk, (nat, nat)>, j: nat, b: nat)
    reads c, c.lines
  {
    c.View() == v && c in owner && owner[c] == (j, b)
  }

  /** Every line object of these chunks has one place. */
  ghost predicate Placed(chunks: set<PatchChunk>, place: map<PatchChunkLine, (PatchChunk, nat)>)
    reads chunks
  {
    forall c, k: nat | c in chunks && k < |c.lines| :: c.lines[k] in place && place[c.lines[k]] == (c, k)
  }

  method StartPatch(name: string, patchset0: seq<Patch>, ghost st: T.State, ghost owner: map<PatchChunk, (nat, nat)>,
                    ghost patch0: Patch?, ghost chunk: PatchChunk?)
    returns (patchset: seq<Patch>, patch: Patch)
    requires Holds(patchset0, st, owner, patch0, chunk)
    ensures Holds(patchset, T.Step(st, T.SrcFile(name)).value, owner, patch, chunk)
    ensures fresh(patch) && patchset == patchset0 + [patch]
  {
    patch := new Patch();
    patchset := patchset0 + [patch];
    patch.SetSrc(name);
    ghost var st' := T.Step(st, T.SrcFile(name)).value;
    assert st'.patches[|patchset0|] == T.Patch(name, "", []);
    forall j: nat | j < |patchset0|
      ensures patchset[j] == patchset0[j] && st'.patches[j] == st.patches[j]
      && Shown(patchset[j], st'.patches[j], owner, j) {
      assert Shown(patchset0[j], st.patches[j], owner, j);
    }
  }

  method NamePatch(name: string, ghost patchset: seq<Patch>, ghost st: T.State,
                   ghost owner: map<PatchChunk, (nat, nat)>, patch: Patch, ghost chunk: PatchChunk?)
    requires Holds(patchset, st, owner, patch, chunk)
    modifies patch
    ensures T.Step(st, T.DstFile(name)).Ok? && Holds(patchset, T.Step(st, T.DstFile(name)).value, owner, patch, chunk)
  {
    ghost var lists, vs := ChunkLists(patchset), T.Step(st, T.DstFile(name)).value.patches;
    patch.SetDst(name);
    forall j: nat | j < |patchset| ensures HeadShown(patchset[j], vs[j], lists[j], owner, j) {
      assert old(Shown(patchset[j], st.patches[j], owner, j));
      assert j < |patchset| - 1 ==> patchset[j] != patch;
      forall b: nat | b < |lists[j]| ensures ChunkShown(lists[j][b], vs[j].chunks[b], owner, j, b) {
        assert old(ChunkShown(lists[j][b], st.patches[j].chunks[b], owner, j, b));
      }
    }
    PatchesShown(patchset, vs, lists, owner);
  }

  lemma PatchesShown(ps: seq<Patch>, vs: seq<T.Patch>, lists: seq<seq<PatchChunk>>, owner: map<PatchChunk, (nat, nat)>)
    requires |ps| == |vs| == |lists| && forall j: nat | j < |ps| :: ps[j].chunks == lists[j]
    requires forall j: nat | j < |ps| :: HeadShown(ps[j], vs[j], lists[j], owner, j)
    ensures forall j: nat | j < |ps| :: Shown(ps[j], vs[j], owner, j)
  {
    forall j: nat | j < |ps| ensures Shown(ps[j], vs[j], owner, j) {
      assert HeadShown(ps[j], vs[j], lists[j], owner, j);
    }
  }

  method StartChunk(h: T.Header, ghost patchset: seq<Patch>, ghost st: T.State,
                    ghost owner0: map<PatchChunk, (nat, nat)>,
                    patch: Patch, ghost chunk0: PatchChunk?)
    returns (chunk: PatchChunk, ghost owner: map<PatchChunk, (nat, nat)>)
    requires Holds(patchset, st, owner0, patch, chunk0)
    modifies patch
    ensures T.Step(st, T.ChunkStart(h.srcPos, h.dstPos)).Ok?
    ensures Holds(patchset, T.Step(st, T.ChunkStart(h.srcPos, h.dstPos)).value, owner, patch, chunk)
    ensures fresh(chunk) && owner.Keys == owner0.Keys + {chunk} && chunk.lines == []
  {
    ghost var lists, n := ChunkLists(patchset), |patchset| - 1;
    chunk := new PatchChunk(h.srcPos, h.dstPos);
    patch.AddChunk(chunk);
    owner := owner0[chunk := (n, |patch.chunks| - 1)];
    forall j: nat | j < |patchset| ensures HeadShown(patchset[j], st.patches[j], lists[j], owner, j) {
      assert old(Shown(patchset[j], st.patches[j], owner0, j));
      forall b: nat | b < |lists[j]| ensures ChunkShown(lists[j][b], st.patches[j].chunks[b], owner, j, b) {
        assert old(ChunkShown(lists[j][b], st.patches[j].chunks[b], owner0, j, b));
      }
    }
    ChunkAdded(patchset, st.patches, lists, T.Chunk(h.srcPos, h.dstPos, []), chunk, owner);
  }

  ghost function ChunkLists(ps: seq<Patch>): (lists: seq<seq<PatchChunk>>)
    reads ps
    ensures |lists| == |ps| && forall j | 0 <= j < |ps| :: lists[j] == ps[j].chunks
  {
    if ps == [] then [] else ChunkLists(ps[..|ps| - 1]) + [ps[|ps| - 1].chunks]
  }

  /** The names of patch number `j` and these chunks of it show what they should. */
  ghost predicate HeadShown(p: Patch, v: T.Patch, chunks: seq<PatchChunk>, owner: map<PatchChunk, (nat, nat)>, j: nat)
    reads *
  {
    && p.src == v.src && p.dst == v.dst && |chunks| == |v.chunks|
    && forall b: nat | b < |chunks| :: ChunkShown(chunks[b], v.chunks[b], owner, j, b)
  }

  /** With a new chunk in the last patch, the objects show the patches with a chunk more. */
  lemma ChunkAdded(ps: seq<Patch>, vs: seq<T.Patch>, lists: seq<seq<PatchChunk>>, v: T.Chunk, chunk: PatchChunk,
                   owner: map<PatchChunk, (nat, nat)>)
    requires |ps| == |vs| == |lists| && ps != []
    requires forall j: nat | j < |ps| :: HeadShown(ps[j], vs[j], lists[j], owner, j)
    requires forall j: nat | j < |ps| - 1 :: ps[j].chunks == lists[j]
    requires ps[|ps| - 1].chunks == lists[|ps| - 1] + [chunk]
    requires ChunkShown(chunk, v, owner, |ps| - 1, |lists[|ps| - 1]|)
    ensures forall j: nat | j < |ps| - 1 :: Shown(ps[j], vs[j], owner, j)
    ensures Shown(ps[|ps| - 1], T.AddChunk(vs[|ps| - 1], v), owner, |ps| - 1)
  {
    forall j: nat | j < |ps| - 1 ensures Shown(ps[j], vs[j], owner, j) {
      assert HeadShown(ps[j], vs[j], lists[j], owner, j);
    }
    assert HeadShown(ps[|ps| - 1], vs[|ps| - 1], lists[|ps| - 1], owner, |ps| - 1);
  }

  method TakeLine(kind: T.Kind, text: string, ghost patchset: seq<Patch>, ghost st: T.State,
                  ghost owner: map<PatchChunk, (nat, nat)>,
                  ghost place0: map<PatchChunkLine, (PatchChunk, nat)>, ghost patch: Patch?, chunk: PatchChunk)
    returns (ghost place: map<PatchChunkLine, (PatchChunk, nat)>)
    requires Holds(patchset, st, owner, patch, chunk) && kind != T.Unset && Placed(owner.Keys, place0)
    modifies chunk
    ensures T.Step(st, T.Text(T.Line(kind, text))).Ok?
    ensures Holds(patchset, T.Step(st, T.Text(T.Line(kind, text))).value, owner, patch, chunk)
    ensures Placed(owner.Keys, place) && forall l | l in place && l !in place0 :: fresh(l)
  {
    chunk.AddText(kind, text);
    ghost var n := |chunk.lines| - 1;
    place := place0[chunk.lines[n] := (chunk, n)];
    ghost var st' := T.Step(st, T.Text(T.Line(kind, text))).value;
    ghost var at := st.at.value;
    forall j: nat | j < |patchset| ensures Shown(patchset[j], st'.patches[j], owner, j) {
      assert old(Shown(patchset[j], st.patches[j], owner, j));
      forall b: nat | b < |patchset[j].chunks|
        ensures ChunkShown(patchset[j].chunks[b], st'.patches[j].chunks[b], owner, j, b) {
        assert old(ChunkShown(patchset[j].chunks[b], st.patches[j].chunks[b], owner, j, b));
        if patchset[j].chunks[b] == chunk {
          assert (j, b) == (at, |patchset[at].chunks| - 1) == owner[chunk];
        } else {
          assert patchset[j].chunks[b].View() == old(patchset[j].chunks[b].View());
        }
      }
    }
    forall c, k: nat | c in owner.Keys && k < |c.lines| ensures c.lines[k] in place && place[c.lines[k]] == (c, k) {
      assert c != chunk ==> c.lines == old(c.lines);
      assert c == chunk && k < n ==> c.lines[k] == old(chunk.lines)[k];
    }
  }

  /** No two places of the patches hold the same object. */
  ghost predicate Separate(ps: seq<Patch>)
    reads *
  {
    && (forall i, j | 0 <= i < j < |ps| :: ps[i] != ps[j])
    && (forall i, j, a, b |
          0 <= i < |ps| && 0 <= j < |ps| && 0 <= a < |ps[i].chunks| && 0 <= b < |ps[j].chunks| &&
          ps[i].chunks[a] == ps[j].chunks[b] ::
          i == j && a == b)
    && (forall i, j, a, b, k, m |
          0 <= i < |ps| && 0 <= j < |ps| && 0 <= a < |ps[i].chunks| && 0 <= b < |ps[j].chunks| &&
          0 <= k < |ps[i].chunks[a].lines| && 0 <= m < |ps[j].chunks[b].lines| &&
          ps[i].chunks[a].lines[k] == ps[j].chunks[b].lines[m] ::
          i == j && a == b && k == m)
  }

  /** Builds the patch objects from the lines of a diff, or raises an exception. All objects are new, and each is in one
      place only. */
  method ParsePatchset(generator: seq<string>) returns (r: T.Result<seq<Patch>>)
    ensures r.Ok? <==> T.Parse(generator).Ok?
    ensures r.Ok? ==> |r.value| == |T.Parse(generator).value| && forall j | 0 <= j < |r.value| ::
      r.value[j].View() == T.Parse(generator).value[j]
    ensures r.Ok? ==> Separate(r.value)
    ensures r.Ok? ==> forall p | p in r.value :: fresh(p)
    ensures r.Ok? ==> forall p, c | p in r.value && c in p.chunks :: fresh(c)
    ensures r.Ok? ==> forall p, c, l | p in r.value && c in p.chunks && l in c.lines :: fresh(l)
  {
    var patchset, ok, st, owner, place, patch, chunk := ReadAll(generator);
    if !ok {
      return T.Error;
    }
    Finished(patchset, st, owner, place, patch, chunk);
    return T.Ok(patchset);
  }

  /** The loop over the lines. */
  method ReadAll(generator: seq<string>)
    returns (patchset: seq<Patch>, ok: bool, ghost st: T.State, ghost owner: map<PatchChunk, (nat, nat)>,
             ghost place: map<PatchChunkLine, (PatchChunk, nat)>, ghost last: Patch?, ghost at: PatchChunk?)
    ensures ok <==> T.Parse(generator).Ok?
    ensures ok ==> Holds(patchset, st, owner, last, at) && Placed(owner.Keys, place)
    ensures ok ==> T.Parse(generator).value == st.patches
    ensures ok ==> fresh(Objects(patchset, owner, place))
  {
    var patch: Patch?, chunk: PatchChunk? := null, null;
    patchset, ok, st, owner, place, last, at := [], true, T.State([], None), map[], map[], null, null;
    for i := 0 to |generator|
      invariant ok && Reading(generator, i, patchset, st, owner, place, patch, chunk)
      invariant fresh(Objects(patchset, owner, place))
      invariant Current(patchset, owner, place, patch, chunk)
    {
      patchset, patch, chunk, st, owner, place, ok :=
        ReadNext(generator, i, patchset, st, owner, place, patch, chunk);
      if !ok {
        return;
      }
    }
    assert generator[..|generator|] == generator;
    last, at := patch, chunk;
  }

  /** The first `i` lines are read. */
  ghost predicate Reading(lines: seq<string>, i: nat, patchset: seq<Patch>, st: T.State,
                          owner: map<PatchChunk, (nat, nat)>, place: map<PatchChunkLine, (PatchChunk, nat)>,
                          patch: Patch?, chunk: PatchChunk?)
    reads *
  {
    && i <= |lines| && T.Run(T.State([], None), lines[..i]) == T.Ok(st)
    && Holds(patchset, st, owner, patch, chunk) && Placed(owner.Keys, place)
  }

  /** The current patch and the current chunk have a place. */
  ghost predicate Current(patchset: seq<Patch>, owner: map<PatchChunk, (nat, nat)>,
                          place: map<PatchChunkLine, (PatchChunk, nat)>, patch: Patch?, chunk: PatchChunk?)
  {
    && (patch != null ==> patch in Objects(patchset, owner, place))
    && (chunk != null ==> chunk in Objects(patchset, owner, place))
  }

  /** One turn of the loop. */
  method ReadNext(generator: seq<string>, i: nat, patchset0: seq<Patch>, ghost st0: T.State,
                  ghost owner0: map<PatchChunk, (nat, nat)>, ghost place0: map<PatchChunkLine, (PatchChunk, nat)>,
                  patch0: Patch?, chunk0: PatchChunk?)
    returns (patchset: seq<Patch>, patch: Patch?, chunk: PatchChunk?, ghost st: T.State,
             ghost owner: map<PatchChunk, (nat, nat)>, ghost place: map<PatchChunkLine, (PatchChunk, nat)>, ok: bool)
    requires i < |generator| && Reading(generator, i, patchset0, st0, owner0, place0, patch0, chunk0)
    modifies patch0, chunk0
    ensures ok ==> Reading(generator, i + 1, patchset, st, owner, place, patch, chunk)
    ensures ok ==> Current(patchset, owner, place, patch, chunk)
    ensures !ok ==> T.Parse(generator).Error?
    ensures fresh(Objects(patchset, owner, place) - Objects(patchset0, owner0, place0))
  {
    ReadOn(generator, i, st0);
    st := st0;
    patchset, patch, chunk, owner, place, ok := ReadLine(generator[i], patchset0, st0, owner0, place0, patch0, chunk0);
    if ok {
      st := T.Step(st0, T.Classify(generator[i])).value;
      AreCurrent(patchset, st, owner, place, patch, chunk);
    }
  }

  /** Every object that has a place. */
  ghost function Objects(patchset: seq<Patch>, owner: map<PatchChunk, (nat, nat)>,
                         place: map<PatchChunkLine, (PatchChunk, nat)>): set<object>
  {
    var patches: set<object>, chunks: set<object>, lines: set<object> :=
      (set p | p in patchset), owner.Keys, place.Keys;
    patches + chunks + lines
  }

  lemma AreCurrent(patchset: seq<Patch>, st: T.State, owner: map<PatchChunk, (nat, nat)>,
                   place: map<PatchChunkLine, (PatchChunk, nat)>, patch: Patch?, chunk: PatchChunk?)
    requires Holds(patchset, st, owner, patch, chunk)
    ensures Current(patchset, owner, place, patch, chunk)
  {
    if chunk != null {
      var at, b := st.at.value, |patchset[st.at.value].chunks| - 1;
      assert Shown(patchset[at], st.patches[at], owner, at);
      assert ChunkShown(patchset[at].chunks[b], st.patches[at].chunks[b], owner, at, b);
    }
  }

  /** When all lines are read, the objects show the patches and are all apart. */
  lemma Finished(patchset: seq<Patch>, st: T.State, owner: map<PatchChunk, (nat, nat)>,
                 place: map<PatchChunkLine, (PatchChunk, nat)>, patch: Patch?, chunk: PatchChunk?)
    requires Holds(patchset, st, owner, patch, chunk) && Placed(owner.Keys, place)
    ensures |patchset| == |st.patches| && forall j | 0 <= j < |patchset| :: patchset[j].View() == st.patches[j]
    ensures Separate(patchset)
    ensures var all := Objects(patchset, owner, place);
      && (forall p | p in patchset :: p in all)
      && (forall p, c | p in patchset && c in p.chunks :: c in all)
      && (forall p, c, l | p in patchset && c in p.chunks && l in c.lines :: l in all)
  {
    AllShown(patchset, st, owner, patch, chunk);
    AllSeparate(patchset, st, owner, place, patch, chunk);
  }

  lemma AllSeparate(patchset: seq<Patch>, st: T.State, owner: map<PatchChunk, (nat, nat)>,
                    place: map<PatchChunkLine, (PatchChunk, nat)>, patch: Patch?, chunk: PatchChunk?)
    requires Holds(patchset, st, owner, patch, chunk) && Placed(owner.Keys, place)
    ensures Separate(patchset)
    ensures forall p, c | p in patchset && c in p.chunks :: c in owner
    ensures forall p, c, l | p in patchset && c in p.chunks && l in c.lines :: l in place
  {
    forall j: nat, b: nat | j < |patchset| && b < |patchset[j].chunks|
      ensures patchset[j].chunks[b] in owner && owner[patchset[j].chunks[b]] == (j, b)
    {
      assert Shown(patchset[j], st.patches[j], owner, j);
    }
  }

  lemma AllShown(patchset: seq<Patch>, st: T.State, owner: map<PatchChunk, (nat, nat)>, patch: Patch?,
                 chunk: PatchChunk?)
    requires Holds(patchset, st, owner, patch, chunk)
    ensures forall j | 0 <= j < |patchset| :: patchset[j].View() == st.patches[j]
  {
    forall j: nat | j < |patchset| ensures patchset[j].View() == st.patches[j] {
      assert Shown(patchset[j], st.patches[j], owner, j);
      assert ChunkViews(patchset[j].chunks) == st.patches[j].chunks;
    }
  }

  /** The body of the loop: the patterns are tried in turn. */
  method ReadLine(line: string, patchset0: seq<Patch>, ghost st: T.State, ghost owner0: map<PatchChunk, (nat, nat)>,
                  ghost place0: map<PatchChunkLine, (PatchChunk, nat)>, patch0: Patch?, chunk0: PatchChunk?)
    returns (patchset: seq<Patch>, patch: Patch?, chunk: PatchChunk?, ghost owner: map<PatchChunk, (nat, nat)>,
             ghost place: map<PatchChunkLine, (PatchChunk, nat)>, ok: bool)
    requires Holds(patchset0, st, owner0, patch0, chunk0) && Placed(owner0.Keys, place0)
    modifies patch0, chunk0
    ensures ok <==> T.Step(st, T.Classify(line)).Ok?
    ensures ok ==> Holds(patchset, T.Step(st, T.Classify(line)).value, owner, patch, chunk) && Placed(owner.Keys, place)
    ensures fresh(Objects(patchset, owner, place) - Objects(patchset0, owner0, place0))
  {
    patchset, patch, chunk, owner, place, ok := patchset0, patch0, chunk0, owner0, place0, true;
    var m := T.After(line, "--- ");
    if m.Some? {
      patchset, patch := StartPatch(m.value, patchset, st, owner, patch, chunk);
      return;
    }
    m := T.After(line, "+++ ");
    if m.Some? {
      ok := patch != null;
      if ok {
        NamePatch(m.value, patchset, st, owner, patch, chunk);
      }
      return;
    }
    chunk, owner, place, ok := ReadBody(line, patchset, st, owner, place, patch, chunk);
  }

  /** The part of the loop body that is about chunks. */
  method ReadBody(line: string, ghost patchset: seq<Patch>, ghost st: T.State,
                  ghost owner0: map<PatchChunk, (nat, nat)>,
                  ghost place0: map<PatchChunkLine, (PatchChunk, nat)>, patch: Patch?, chunk0: PatchChunk?)
    returns (chunk: PatchChunk?, ghost owner: map<PatchChunk, (nat, nat)>,
             ghost place: map<PatchChunkLine, (PatchChunk, nat)>, ok: bool)
    requires Holds(patchset, st, owner0, patch, chunk0) && Placed(owner0.Keys, place0)
    modifies patch, chunk0
    ensures ok <==> T.Step(st, T.ClassifyBody(line)).Ok?
    ensures ok ==>
      Holds(patchset, T.Step(st, T.ClassifyBody(line)).value, owner, patch, chunk) && Placed(owner.Keys, place)
    ensures forall c | c in owner && c !in owner0 :: fresh(c)
    ensures forall l | l in place && l !in place0 :: fresh(l)
  {
    chunk, owner, place, ok := chunk0, owner0, place0, true;
    var h := T.ReadHeader(line);
    if h.Some? {
      ok := patch != null;
      if ok {
        chunk, owner := OpenChunk(h.value, patchset, st, owner, place, patch, chunk);
      }
      return;
    }
    place, ok := ReadText(line, patchset, st, owner, place, patch, chunk);
  }

  method OpenChunk(h: T.Header, ghost patchset: seq<Patch>, ghost st: T.State,
                   ghost owner0: map<PatchChunk, (nat, nat)>,
                   ghost place: map<PatchChunkLine, (PatchChunk, nat)>, patch: Patch, ghost chunk0: PatchChunk?)
    returns (chunk: PatchChunk, ghost owner: map<PatchChunk, (nat, nat)>)
    requires Holds(patchset, st, owner0, patch, chunk0) && Placed(owner0.Keys, place)
    modifies patch
    ensures T.Step(st, T.ChunkStart(h.srcPos, h.dstPos)).Ok?
    ensures Holds(patchset, T.Step(st, T.ChunkStart(h.srcPos, h.dstPos)).value, owner, patch, chunk)
    ensures fresh(chunk) && owner.Keys == owner0.Keys + {chunk} && Placed(owner.Keys, place)
  {
    chunk, owner := StartChunk(h, patchset, st, owner0, patch, chunk0);
  }

  method ReadText(line: string, ghost patchset: seq<Patch>, ghost st: T.State, ghost owner: map<PatchChunk, (nat, nat)>,
                  ghost place0: map<PatchChunkLine, (PatchChunk, nat)>, ghost patch: Patch?, chunk: PatchChunk?)
    returns (ghost place: map<PatchChunkLine, (PatchChunk, nat)>, ok: bool)
    requires Holds(patchset, st, owner, patch, chunk) && Placed(owner.Keys, place0)
    modifies chunk
    ensures ok <==> T.Step(st, T.ClassifyText(line)).Ok?
    ensures ok ==>
      Holds(patchset, T.Step(st, T.ClassifyText(line)).value, owner, patch, chunk) && Placed(owner.Keys, place)
    ensures forall l | l in place && l !in place0 :: fresh(l)
  {
    var kind, m := T.Src, T.After(line, "-");
    if m.None? {
      kind, m := T.Dst, T.After(line, "+");
    }
    if m.None? {
      kind, m := T.Both, T.After(line, " ");
    }
    ok, place := m.Some? && chunk != null, place0;
    if ok {
      place := TakeLine(kind, m.value, patchset, st, owner, place0, patch, chunk);
    }
  }

  /** One more line is read, or reading the whole ends in an error. */
  lemma ReadOn(lines: seq<string>, i: nat, st: T.State)
    requires i < |lines| && T.Run(T.State([], None), lines[..i]) == T.Ok(st)
    ensures T.Run(T.State([], None), lines[..i + 1]) == T.Step(st, T.Classify(lines[i]))
    ensures T.Step(st, T.Classify(lines[i])).Error? ==> T.Parse(lines).Error?
  {
    var start, front, rest := T.State([], None), lines[..i + 1], lines[i + 1..];
    Parted(lines, i);
    R.RunMore(start, lines[..i], lines[i]);
    R.RunConcat(start, front, rest);
  }

  lemma Parted<X>(s: seq<X>, i: nat)
    requires i < |s|
    ensures s[..i + 1] == s[..i] + [s[i]] && s == s[..i + 1] + s[i + 1..]
  {}
}
