/** Literal strings in PDF content streams: parentheses nest, a backslash takes the next byte as it
    is, and a stream is scanned for one literal after the other (the delimiter, nesting and
    backslash rules of ISO 32000-1, section 7.3.4.2). */
module PdfLiterals {
  import opened Wrappers
  import opened Text

  type Byte = i: int | 0 <= i < 256
  type Bytes = seq<Byte>

  const OPEN: Byte := 40
  const CLOSE: Byte := 41
  const BACKSLASH: Byte := 92

  datatype PdfError = Unterminated

  /** A literal's value and how many bytes it takes, closing parenthesis included. */
  datatype Literal = Literal(value: Bytes, taken: nat)

  function Prefixed(b: Bytes, n: nat, r: Result<Literal, PdfError>): Result<Literal, PdfError> {
    match r
    case Ok(l) => Ok(Literal(b + l.value, n + l.taken))
    case Err(e) => Err(e)
  }

  /** Reads a literal `depth` parentheses deep. */
  function Read(s: Bytes, depth: nat): Result<Literal, PdfError>
    requires depth > 0
  {
    if s == [] then Err(Unterminated)
    else if s[0] == BACKSLASH then
      if |s| == 1 then Err(Unterminated) else Prefixed([s[1]], 2, Read(s[2..], depth))
    else if s[0] == OPEN then Prefixed([OPEN], 1, Read(s[1..], depth + 1))
    else if s[0] == CLOSE then
      if depth == 1 then Ok(Literal([], 1)) else Prefixed([CLOSE], 1, Read(s[1..], depth - 1))
    else Prefixed([s[0]], 1, Read(s[1..], depth))
  }

  function Latin1(b: Bytes): string {
    seq(|b|, i requires 0 <= i < |b| => b[i] as char)
  }

  /** The trimmed, non-empty literals of a stream, in order. */
  function Scan(s: Bytes): Result<seq<string>, PdfError>
    decreases |s|
  {
    if s == [] then Ok([])
    else if s[0] != OPEN then Scan(s[1..])
    else
      var l :- Read(s[1..], 1);
      ReadTakes(s[1..], 1);
      Before(Found(l.value), Scan(s[1 + l.taken..]))
  }

  /** What a literal adds to the list. */
  function Found(value: Bytes): seq<string> {
    var text := Strip(Latin1(value));
    if text != "" then [text] else []
  }

  function Before(front: seq<string>, r: Result<seq<string>, PdfError>): Result<seq<string>, PdfError> {
    match r
    case Ok(rest) => Ok(front + rest)
    case Err(e) => Err(e)
  }

  /** A literal ends within the stream, at a closing parenthesis. */
  lemma {:induction false} ReadTakes(s: Bytes, depth: nat)
    requires depth > 0
    ensures var r := Read(s, depth);
            r.Ok? ==> 1 <= r.value.taken <= |s| && s[r.value.taken - 1] == CLOSE && |r.value.value| < r.value.taken
  {
    if s != [] {
      if s[0] == BACKSLASH {
        if |s| > 1 {
          ReadTakes(s[2..], depth);
        }
      } else if s[0] == OPEN {
        ReadTakes(s[1..], depth + 1);
      } else if s[0] == CLOSE {
        if depth > 1 {
          ReadTakes(s[1..], depth - 1);
        }
      } else {
        ReadTakes(s[1..], depth);
      }
    }
  }

  lemma PrefixedTwice(a: Bytes, m: nat, b: Bytes, n: nat, r: Result<Literal, PdfError>)
    ensures Prefixed(a, m, Prefixed(b, n, r)) == Prefixed(a + b, m + n, r)
  {
    if r.Ok? {
      assert a + (b + r.value.value) == a + b + r.value.value;
    }
  }

  /** `_read_pdf_literal_string`: the value, and the index after the closing parenthesis. */
  method ReadLiteral(stream: Bytes, start: nat) returns (r: Result<(Bytes, nat), PdfError>)
    requires start <= |stream|
    ensures match Read(stream[start..], 1)
            case Ok(l) => r == Ok((l.value, start + l.taken))
            case Err(e) => r == Err(e)
  {
    var value: Bytes := [];
    var depth: nat := 1;
    var index := start;
    assert Prefixed([], 0, Read(stream[start..], 1)) == Read(stream[start..], 1) by {
      var whole := Read(stream[start..], 1);
      if whole.Ok? {
        assert [] + whole.value.value == whole.value.value;
      }
    }
    while index < |stream|
      invariant start <= index <= |stream| + 1 && depth > 0
      invariant index <= |stream| ==>
                  Read(stream[start..], 1) == Prefixed(value, index - start, Read(stream[index..], depth))
      invariant index == |stream| + 1 ==> Read(stream[start..], 1) == Err(Unterminated)
      decreases |stream| + 1 - index
    {
      ghost var before := value;
      var byte := stream[index];
      assert stream[index..][1..] == stream[index + 1..];
      if byte == BACKSLASH {
        index := index + 1;
        if index < |stream| {
          value := value + [stream[index]];
          assert stream[index - 1..][2..] == stream[index + 1..];
          PrefixedTwice(before, index - 1 - start, [stream[index]], 2, Read(stream[index + 1..], depth));
        }
      } else if byte == OPEN {
        PrefixedTwice(before, index - start, [OPEN], 1, Read(stream[index + 1..], depth + 1));
        depth := depth + 1;
        value := value + [byte];
      } else if byte == CLOSE {
        if depth == 1 {
          assert value + [] == value;
          return Ok((value, index + 1));
        }
        PrefixedTwice(before, index - start, [CLOSE], 1, Read(stream[index + 1..], depth - 1));
        depth := depth - 1;
        value := value + [byte];
      } else {
        PrefixedTwice(before, index - start, [byte], 1, Read(stream[index + 1..], depth));
        value := value + [byte];
      }
      index := index + 1;
    }
    return Err(Unterminated);
  }

  lemma BeforeTwice(a: seq<string>, b: seq<string>, r: Result<seq<string>, PdfError>)
    ensures Before(a, Before(b, r)) == Before(a + b, r)
    ensures Before([], r) == r
  {
    if r.Ok? {
      assert a + (b + r.value) == a + b + r.value;
      assert [] + r.value == r.value;
    }
  }

  /** `_pdf_literal_strings`. */
  method LiteralStrings(stream: Bytes) returns (r: Result<seq<string>, PdfError>)
    ensures r == Scan(stream)
  {
    var values: seq<string> := [];
    var index := 0;
    assert stream[0..] == stream;
    BeforeTwice([], [], Scan(stream));
    while index < |stream|
      invariant 0 <= index <= |stream|
      invariant Scan(stream) == Before(values, Scan(stream[index..]))
    {
      ghost var s := stream[index..];
      assert s[1..] == stream[index + 1..];
      if stream[index] != OPEN {
        index := index + 1;
        continue;
      }
      ReadTakes(s[1..], 1);
      var read := ReadLiteral(stream, index + 1);
      var literal :- read;
      assert s[1 + (literal.1 - index - 1)..] == stream[literal.1..];
      BeforeTwice(values, Found(literal.0), Scan(stream[literal.1..]));
      var decoded := Strip(Latin1(literal.0));
      if decoded != "" {
        values := values + [decoded];
      }
      index := literal.1;
    }
    assert values + [] == values;
    return Ok(values);
  }

  // ---- escaping ----

  predicate Special(b: Byte) {
    b == OPEN || b == CLOSE || b == BACKSLASH
  }

  /** A backslash before every parenthesis and backslash. */
  function Escape(v: Bytes): Bytes {
    if v == [] then []
    else (if Special(v[0]) then [BACKSLASH, v[0]] else [v[0]]) + Escape(v[1..])
  }

  /** Escaping any bytes and parsing gives them back and stops just past the closing parenthesis,
      whatever follows and however deep. */
  lemma {:induction false} EscapeRoundTrip(v: Bytes, rest: Bytes)
    ensures Read(Escape(v) + [CLOSE] + rest, 1) == Ok(Literal(v, |Escape(v)| + 1))
  {
    var s := Escape(v) + [CLOSE] + rest;
    if v == [] {
      assert s[0] == CLOSE;
    } else {
      EscapeRoundTrip(v[1..], rest);
      var tail := Escape(v[1..]) + [CLOSE] + rest;
      if Special(v[0]) {
        assert s == [BACKSLASH, v[0]] + tail;
        assert s[2..] == tail;
      } else {
        assert s == [v[0]] + tail;
        assert s[1..] == tail;
      }
      assert v == [v[0]] + v[1..];
    }
  }

  /** Parentheses match up and none closes more than `depth`. */
  predicate Balanced(v: Bytes, depth: nat) {
    if v == [] then depth == 0
    else if v[0] == OPEN then Balanced(v[1..], depth + 1)
    else if v[0] == CLOSE then depth > 0 && Balanced(v[1..], depth - 1)
    else Balanced(v[1..], depth)
  }

  /** Text without backslashes parses to itself as a whole exactly when its parentheses balance. */
  lemma {:induction false} BalancedReadsItself(v: Bytes, depth: nat, rest: Bytes)
    requires BACKSLASH !in v
    ensures Balanced(v, depth) <==> Read(v + [CLOSE] + rest, depth + 1) == Ok(Literal(v, |v| + 1))
  {
    var s := v + [CLOSE] + rest;
    if v == [] {
      assert s[0] == CLOSE;
      assert s[1..] == rest;
      if depth > 0 {
        assert Read(s, depth + 1) == Prefixed([CLOSE], 1, Read(rest, depth));
      }
    } else {
      assert s[1..] == v[1..] + [CLOSE] + rest;
      assert v == [v[0]] + v[1..];
      if v[0] == OPEN {
        BalancedReadsItself(v[1..], depth + 1, rest);
        OneMore(OPEN, v[1..], Read(s[1..], depth + 2));
      } else if v[0] == CLOSE {
        if depth > 0 {
          BalancedReadsItself(v[1..], depth - 1, rest);
          OneMore(CLOSE, v[1..], Read(s[1..], depth));
        }
      } else {
        BalancedReadsItself(v[1..], depth, rest);
        OneMore(v[0], v[1..], Read(s[1..], depth + 1));
      }
    }
  }

  lemma OneMore(b: Byte, v: Bytes, r: Result<Literal, PdfError>)
    ensures Prefixed([b], 1, r) == Ok(Literal([b] + v, |v| + 2)) <==> r == Ok(Literal(v, |v| + 1))
  {
    if r.Ok? && [b] + r.value.value == [b] + v {
      assert ([b] + r.value.value)[1..] == r.value.value && ([b] + v)[1..] == v;
    }
  }

  // ---- streams ----

  /** Filler, then a literal with this value. */
  datatype Piece = Piece(filler: Bytes, value: Bytes)

  /** A stream of escaped literals separated by filler, with filler at the end. */
  function Render(pieces: seq<Piece>, tail: Bytes): Bytes {
    if pieces == [] then tail
    else pieces[0].filler + [OPEN] + Escape(pieces[0].value) + [CLOSE] + Render(pieces[1..], tail)
  }

  /** The trimmed values that are not empty. */
  function Texts(pieces: seq<Piece>): seq<string> {
    if pieces == [] then []
    else Found(pieces[0].value) + Texts(pieces[1..])
  }

  lemma {:induction false} ScanSkipsFiller(filler: Bytes, s: Bytes)
    requires OPEN !in filler
    ensures Scan(filler + s) == Scan(s)
  {
    if filler == [] {
      assert filler + s == s;
    } else {
      assert (filler + s)[1..] == filler[1..] + s;
      ScanSkipsFiller(filler[1..], s);
    }
  }

  /** Scanning a rendered stream yields exactly the trimmed non-empty values, in order, as long as no
      filler opens a parenthesis. */
  lemma {:induction false} ScanFindsAll(pieces: seq<Piece>, tail: Bytes)
    requires OPEN !in tail && forall p :: p in pieces ==> OPEN !in p.filler
    ensures Scan(Render(pieces, tail)) == Ok(Texts(pieces))
  {
    if pieces == [] {
      ScanSkipsFiller(tail, []);
      assert tail + [] == tail;
    } else {
      var p := pieces[0];
      var rest := Render(pieces[1..], tail);
      var literal := Escape(p.value) + [CLOSE] + rest;
      assert Render(pieces, tail) == p.filler + ([OPEN] + literal);
      ScanSkipsFiller(p.filler, [OPEN] + literal);
      assert ([OPEN] + literal)[1..] == literal;
      EscapeRoundTrip(p.value, rest);
      assert ([OPEN] + literal)[1 + (|Escape(p.value)| + 1)..] == rest;
      ScanFindsAll(pieces[1..], tail);
    }
  }
}
