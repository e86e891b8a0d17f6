/** Cutting extracted text into chunks of bounded size, each a trimmed window of the text. */
module Chunker {
  import opened Wrappers
  import opened Text

  datatype Settings = Settings(maxCharacters: nat, overlap: nat, prefix: string) {
    /** What the constructor demands. */
    predicate Valid() {
      maxCharacters >= 1 && overlap < maxCharacters && prefix != ""
    }

    function Step(): nat
      requires Valid()
    {
      maxCharacters - overlap
    }
  }

  datatype Chunk = Chunk(id: string, text: string)

  datatype ChunkError = EmptyText | NoChunks

  function Min(a: nat, b: nat): nat {
    if a < b then a else b
  }

  function Window(c: Settings, s: string, start: nat): string
    requires start <= |s|
  {
    s[start..Min(start + c.maxCharacters, |s|)]
  }

  /** The trimmed windows from `start` on that are not blank. */
  function Segments(c: Settings, s: string, start: nat): seq<string>
    requires c.Valid()
    decreases |s| - start
  {
    if start >= |s| then []
    else Kept(Strip(Window(c, s, start))) + Segments(c, s, start + c.Step())
  }

  function Kept(segment: string): seq<string> {
    if segment != "" then [segment] else []
  }

  /** `f"{index:04d}"`. */
  function Padded(n: nat): string {
    Zeros(if |Decimal(n)| < 4 then 4 - |Decimal(n)| else 0) + Decimal(n)
  }

  function Zeros(k: nat): (z: string)
    ensures |z| == k && forall i :: 0 <= i < k ==> z[i] == '0'
  {
    seq(k, _ => '0')
  }

  function ChunkId(prefix: string, index: nat): string {
    prefix + "-" + Padded(index)
  }

  predicate NumberedAt(c: Settings, texts: seq<string>, chunks: seq<Chunk>, i: nat) {
    i < |texts| && i < |chunks| && chunks[i] == Chunk(ChunkId(c.prefix, i), texts[i])
  }

  /** Chunk `i` is text `i` with the id of its position. */
  predicate Numbered(c: Settings, texts: seq<string>, chunks: seq<Chunk>) {
    |chunks| == |texts| && forall i :: 0 <= i < |chunks| ==> NumberedAt(c, texts, chunks, i)
  }

  /** `chunk`. The error for a text without chunks is never raised: a text that is not blank has one. */
  method ChunkText(c: Settings, text: string) returns (r: Result<seq<Chunk>, ChunkError>)
    requires c.Valid()
    ensures r.Err? <==> Blank(text)
    ensures r.Err? ==> r.error.EmptyText?
    ensures r.Ok? ==> Numbered(c, Segments(c, Strip(text), 0), r.value) && r.value != []
  {
    var normalized := Strip(text);
    if normalized == "" {
      return Err(EmptyText);
    }
    FirstSegment(c, text);
    var chunks := CutWindows(c, normalized);
    return if chunks == [] then Err(NoChunks) else Ok(chunks);
  }

  method CutWindows(c: Settings, s: string) returns (chunks: seq<Chunk>)
    requires c.Valid()
    ensures Numbered(c, Segments(c, s, 0), chunks)
  {
    var step := c.maxCharacters - c.overlap;
    chunks := [];
    ghost var texts: seq<string> := [];
    var start := 0;
    BeginCut(c, s);
    while start < |s|
      invariant 0 <= start && Numbered(c, texts, chunks)
      invariant CutUpTo(c, s, start, texts)
      decreases |s| - start
    {
      var segment := Strip(Window(c, s, start));
      NextWindow(c, s, start, texts);
      AppendNumbered(c, texts, chunks, segment);
      if segment != "" {
        chunks := chunks + [Chunk(ChunkId(c.prefix, |chunks|), segment)];
      }
      texts := texts + Kept(segment);
      start := start + step;
    }
    EndCut(c, s, start, texts);
  }

  /** The windows before `start` have given `texts`. */
  predicate CutUpTo(c: Settings, s: string, start: nat, texts: seq<string>)
    requires c.Valid()
  {
    Segments(c, s, 0) == texts + Segments(c, s, start)
  }

  lemma BeginCut(c: Settings, s: string)
    requires c.Valid()
    ensures CutUpTo(c, s, 0, [])
  {
    assert [] + Segments(c, s, 0) == Segments(c, s, 0);
  }

  lemma EndCut(c: Settings, s: string, start: nat, texts: seq<string>)
    requires c.Valid() && start >= |s| && CutUpTo(c, s, start, texts)
    ensures texts == Segments(c, s, 0)
  {
    assert texts + [] == texts;
  }

  lemma AppendNumbered(c: Settings, texts: seq<string>, chunks: seq<Chunk>, segment: string)
    requires Numbered(c, texts, chunks)
    ensures Numbered(c, texts + Kept(segment),
                     if segment != "" then chunks + [Chunk(ChunkId(c.prefix, |chunks|), segment)] else chunks)
  {
    if segment == "" {
      assert texts + Kept(segment) == texts;
    } else {
      var chunks' := chunks + [Chunk(ChunkId(c.prefix, |chunks|), segment)];
      forall i | 0 <= i < |chunks'| ensures NumberedAt(c, texts + [segment], chunks', i) {
        assert i < |chunks| ==> NumberedAt(c, texts, chunks, i);
      }
    }
  }

  lemma NextWindow(c: Settings, s: string, start: nat, texts: seq<string>)
    requires c.Valid() && start < |s| && CutUpTo(c, s, start, texts)
    ensures CutUpTo(c, s, start + c.Step(), texts + Kept(Strip(Window(c, s, start))))
  {
    SegmentsUnfold(c, s, start);
    Associates(texts, Kept(Strip(Window(c, s, start))), Segments(c, s, start + c.Step()));
  }

  lemma Associates(a: seq<string>, b: seq<string>, c: seq<string>)
    ensures a + (b + c) == a + b + c
  {
  }

  // ---- trimming loses only white space ----

  function NonSpace(s: string): string {
    if s == "" then "" else NonSpace(s[..|s| - 1]) + if IsSpace(s[|s| - 1]) then "" else [s[|s| - 1]]
  }

  lemma {:induction false} NonSpaceJoins(a: string, b: string)
    ensures NonSpace(a + b) == NonSpace(a) + NonSpace(b)
  {
    if b == "" {
      assert a + b == a;
    } else {
      assert (a + b)[..|a + b| - 1] == a + b[..|b| - 1];
      NonSpaceJoins(a, b[..|b| - 1]);
    }
  }

  lemma {:induction false} NonSpaceOfSpaces(s: string)
    requires AllSpace(s)
    ensures NonSpace(s) == ""
  {
    if s != "" {
      NonSpaceOfSpaces(s[..|s| - 1]);
    }
  }

  lemma StripKeepsNonSpace(s: string)
    ensures NonSpace(Strip(s)) == NonSpace(s)
  {
    var before, after := StripSlices(s);
    SurroundedNonSpace(before, Strip(s), after);
  }

  lemma SurroundedNonSpace(before: string, t: string, after: string)
    requires AllSpace(before) && AllSpace(after)
    ensures NonSpace(before + (t + after)) == NonSpace(t)
  {
    NonSpaceJoins(before, t + after);
    NonSpaceJoins(t, after);
    NonSpaceOfSpaces(before);
    NonSpaceOfSpaces(after);
  }

  /** A text that is not blank starts with a character that is kept, so its first window is a chunk. */
  lemma FirstSegment(c: Settings, text: string)
    requires c.Valid() && !Blank(text)
    ensures Segments(c, Strip(text), 0) != []
  {
    var s := Strip(text);
    StripFacts(text);
    var window := Window(c, s, 0);
    StripFacts(window);
    assert window[0] == s[0];
  }

  // ---- what chunks are ----

  lemma WindowBounded(c: Settings, s: string, start: nat)
    requires c.Valid() && start <= |s|
    ensures Trimmed(Strip(Window(c, s, start))) && |Strip(Window(c, s, start))| <= c.maxCharacters
  {
    StripFacts(Window(c, s, start));
    var _, _ := StripSlices(Window(c, s, start));
  }

  predicate WellCut(c: Settings, t: string) {
    t != "" && Trimmed(t) && |t| <= c.maxCharacters
  }

  /** Every chunk is trimmed, not empty, and no longer than the maximum. */
  lemma {:induction false} SegmentsBounded(c: Settings, s: string, start: nat)
    requires c.Valid()
    ensures forall t :: t in Segments(c, s, start) ==> WellCut(c, t)
    decreases |s| - start
  {
    if start < |s| {
      var rest := Segments(c, s, start + c.Step());
      SegmentsBounded(c, s, start + c.Step());
      WindowBounded(c, s, start);
      KeptBounded(c, Strip(Window(c, s, start)), rest);
    }
  }

  lemma KeptBounded(c: Settings, segment: string, rest: seq<string>)
    requires Trimmed(segment) && |segment| <= c.maxCharacters && forall t :: t in rest ==> WellCut(c, t)
    ensures forall t :: t in Kept(segment) + rest ==> WellCut(c, t)
  {
  }

  /** How many steps it takes to leave `left` characters behind. */
  function Steps(left: int, step: nat): nat
    requires step > 0
    decreases if left < 0 then 0 else left
  {
    if left <= 0 then 0 else 1 + Steps(left - step, step)
  }

  /** That is `left` divided by `step`, rounded up. */
  lemma {:induction false} StepsRoundUp(left: nat, step: nat)
    requires step > 0 && left > 0
    ensures (Steps(left, step) - 1) * step < left <= Steps(left, step) * step
  {
    var fewer := Steps(left - step, step);
    assert (fewer + 1) * step == fewer * step + step;
    if left > step {
      StepsRoundUp(left - step, step);
      assert (fewer - 1) * step + step == fewer * step;
    }
  }

  /** There are at most as many chunks as steps fit the text, rounded up. */
  lemma {:induction false} SegmentsCounted(c: Settings, s: string, start: nat)
    requires c.Valid()
    ensures |Segments(c, s, start)| <= Steps(|s| - start, c.Step())
    decreases |s| - start
  {
    if start < |s| {
      SegmentsCounted(c, s, start + c.Step());
      assert |Kept(Strip(Window(c, s, start)))| <= 1;
    }
  }

  /** Text `t` is the slice of `s` at `at`, and covers position `p`. */
  predicate CoversAt(s: string, t: string, at: nat, p: nat) {
    at <= p < at + |t| && at + |t| <= |s| && t == s[at..at + |t|]
  }

  /** Every character that is not white space lies in some chunk, at its own place. */
  lemma {:induction false} SegmentsCover(c: Settings, s: string, start: nat, p: nat) returns (t: string, at: nat)
    requires c.Valid() && start <= p < |s| && !IsSpace(s[p])
    ensures t in Segments(c, s, start) && CoversAt(s, t, at, p)
    decreases |s| - start
  {
    SegmentsUnfold(c, s, start);
    if p < start + c.maxCharacters {
      t := Strip(Window(c, s, start));
      at := WindowCovers(c, s, start, p);
    } else {
      t, at := SegmentsCover(c, s, start + c.Step(), p);
    }
  }

  lemma WindowCovers(c: Settings, s: string, start: nat, p: nat) returns (at: nat)
    requires c.Valid() && start <= p < |s| && p < start + c.maxCharacters && !IsSpace(s[p])
    ensures Strip(Window(c, s, start)) != "" && CoversAt(s, Strip(Window(c, s, start)), at, p)
  {
    var window := Window(c, s, start);
    var before, after := StripSlices(window);
    assert window[p - start] == s[p];
    InnerPosition(before, Strip(window), after, p - start);
    at := start + |before|;
    InnerSlice(s, start, before, Strip(window), after);
  }

  lemma InnerPosition(before: string, t: string, after: string, i: nat)
    requires AllSpace(before) && AllSpace(after)
    requires i < |before + (t + after)| && !IsSpace((before + (t + after))[i])
    ensures |before| <= i < |before| + |t|
  {
  }

  lemma InnerSlice(s: string, start: nat, before: string, t: string, after: string)
    requires start + |before + (t + after)| <= |s| && before + (t + after) == s[start..start + |before + (t + after)|]
    ensures t == s[start + |before|..start + |before| + |t|]
  {
    var window := before + (t + after);
    forall k | 0 <= k < |t| ensures s[start + |before| + k] == t[k] {
      assert window[|before| + k] == t[k];
      assert window[|before| + k] == s[start + (|before| + k)];
    }
  }

  function NonSpaceAll(texts: seq<string>): string {
    if texts == [] then "" else NonSpace(texts[0]) + NonSpaceAll(texts[1..])
  }

  lemma NonSpaceAllKept(segment: string, rest: seq<string>)
    ensures NonSpaceAll(Kept(segment) + rest) == NonSpace(segment) + NonSpaceAll(rest)
  {
    if segment != "" {
      assert ([segment] + rest)[1..] == rest;
    } else {
      assert [] + rest == rest;
    }
  }

  /** Without overlap the chunks carry the text's characters other than white space, each once and
      in order. */
  lemma {:induction false} NoOverlapKeepsText(c: Settings, s: string, start: nat)
    requires c.Valid() && c.overlap == 0 && start <= |s|
    ensures NonSpaceAll(Segments(c, s, start)) == NonSpace(s[start..])
    decreases |s| - start
  {
    if start == |s| {
      assert s[start..] == "";
    } else if start + c.Step() < |s| {
      NoOverlapKeepsText(c, s, start + c.Step());
      MiddleWindow(c, s, start);
    } else {
      LastWindow(c, s, start);
    }
  }

  lemma MiddleWindow(c: Settings, s: string, start: nat)
    requires c.Valid() && c.overlap == 0 && start + c.Step() < |s|
    requires NonSpaceAll(Segments(c, s, start + c.Step())) == NonSpace(s[start + c.Step()..])
    ensures NonSpaceAll(Segments(c, s, start)) == NonSpace(s[start..])
  {
    FirstKept(c, s, start);
    SplitWindow(c, s, start);
  }

  lemma LastWindow(c: Settings, s: string, start: nat)
    requires c.Valid() && c.overlap == 0 && start < |s| <= start + c.Step()
    ensures NonSpaceAll(Segments(c, s, start)) == NonSpace(s[start..])
  {
    FirstKept(c, s, start);
    assert s[start..] == Window(c, s, start);
  }

  lemma FirstKept(c: Settings, s: string, start: nat)
    requires c.Valid() && start < |s|
    ensures NonSpaceAll(Segments(c, s, start))
            == NonSpace(Window(c, s, start)) + NonSpaceAll(Segments(c, s, start + c.Step()))
  {
    SegmentsUnfold(c, s, start);
    TrimmedKept(Window(c, s, start), Segments(c, s, start + c.Step()));
  }

  lemma SegmentsUnfold(c: Settings, s: string, start: nat)
    requires c.Valid() && start < |s|
    ensures Segments(c, s, start) == Kept(Strip(Window(c, s, start))) + Segments(c, s, start + c.Step())
  {
  }

  lemma TrimmedKept(window: string, rest: seq<string>)
    ensures NonSpaceAll(Kept(Strip(window)) + rest) == NonSpace(window) + NonSpaceAll(rest)
  {
    StripKeepsNonSpace(window);
    NonSpaceAllKept(Strip(window), rest);
  }

  lemma SplitWindow(c: Settings, s: string, start: nat)
    requires c.Valid() && c.overlap == 0 && start + c.Step() < |s|
    ensures NonSpace(s[start..]) == NonSpace(Window(c, s, start)) + NonSpace(s[start + c.Step()..])
  {
    assert s[start..] == Window(c, s, start) + s[start + c.Step()..];
    NonSpaceJoins(Window(c, s, start), s[start + c.Step()..]);
  }

  /** So the whole text's characters other than white space survive chunking. */
  lemma ChunksKeepText(c: Settings, text: string)
    requires c.Valid() && c.overlap == 0
    ensures NonSpaceAll(Segments(c, Strip(text), 0)) == NonSpace(text)
  {
    NoOverlapKeepsText(c, Strip(text), 0);
    assert Strip(text)[0..] == Strip(text);
    StripKeepsNonSpace(text);
  }

  // ---- ids ----

  lemma {:induction false} LeadingZeros(k: nat, s: string)
    requires forall i :: 0 <= i < |s| ==> IsDigit(s[i])
    ensures forall i :: 0 <= i < k + |s| ==> IsDigit((Zeros(k) + s)[i])
    ensures ParseDecimal(Zeros(k) + s) == ParseDecimal(s)
  {
    var whole := Zeros(k) + s;
    if s != "" {
      assert whole[..|whole| - 1] == Zeros(k) + s[..|s| - 1];
      LeadingZeros(k, s[..|s| - 1]);
    } else if k > 0 {
      assert whole == Zeros(k);
      assert Zeros(k)[..k - 1] == Zeros(k - 1) + "";
      LeadingZeros(k - 1, "");
    }
  }

  /** No two chunks of a text have the same id. */
  lemma IdsDistinct(prefix: string, i: nat, j: nat)
    requires ChunkId(prefix, i) == ChunkId(prefix, j)
    ensures i == j
  {
    assert ChunkId(prefix, i)[|prefix + "-"|..] == Padded(i);
    assert ChunkId(prefix, j)[|prefix + "-"|..] == Padded(j);
    PaddedParses(i);
    PaddedParses(j);
  }

  lemma PaddedParses(n: nat)
    ensures forall i :: 0 <= i < |Padded(n)| ==> IsDigit(Padded(n)[i])
    ensures ParseDecimal(Padded(n)) == n
  {
    LeadingZeros(if |Decimal(n)| < 4 then 4 - |Decimal(n)| else 0, Decimal(n));
    ParsePrintsBack(n);
  }
}
