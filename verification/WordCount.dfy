/** metis/app/wc.c: the input splitter and the map function of word count. */
module WordCount {
  const DEF_NSPLITS_PER_CORE: nat := 16
  const MAX_KEY_LEN: nat := 256

  // ---------------------------------------------------------------- words

  predicate Sep(c: char) { c == ' ' || c == '\t' || c == '\r' || c == '\n' || c == '\0' }

  /** toupper */
  function Upper(c: char): char { if 'a' <= c <= 'z' then ((c as int) - 32) as char else c }

  predicate Letter(c: char) { 'A' <= Upper(c) <= 'Z' }
  predicate Inner(c: char) { Letter(c) || c == '\'' }

  function UpperAll(s: string): string { seq(|s|, i requires 0 <= i < |s| => Upper(s[i])) }

  /** How far a word that begins before `s` goes on in it. */
  function Run(s: string): (n: nat)
    ensures n <= |s| && (n < |s| ==> !Inner(s[n])) && forall i :: 0 <= i < n ==> Inner(s[i])
  {
    if s != [] && Inner(s[0]) then 1 + Run(s[1..]) else 0
  }

  /** The words of a text: a letter and all letters and apostrophes behind it. */
  function Words(s: string): seq<string>
    decreases |s|
  {
    if s == [] then []
    else if !Letter(s[0]) then Words(s[1..])
    else var n := 1 + Run(s[1..]); [UpperAll(s[..n])] + Words(s[n..])
  }

  /** A run is the longest: it can only be one number. */
  lemma {:induction false} RunIs(s: string, n: nat)
    requires n <= |s| && (n < |s| ==> !Inner(s[n])) && forall i :: 0 <= i < n ==> Inner(s[i])
    ensures Run(s) == n
  {
    if n > 0 {
      assert Inner(s[0]);
      RunIs(s[1..], n - 1);
    }
  }

  lemma NoWord(s: string)
    requires s == [] || !Letter(s[0])
    ensures Words(s) == if s == [] then [] else Words(s[1..])
  {
  }

  lemma FirstWord(s: string, n: nat)
    requires 0 < n <= |s| && Letter(s[0]) && (n < |s| ==> !Inner(s[n])) && forall i :: 0 < i < n ==> Inner(s[i])
    ensures Words(s) == [UpperAll(s[..n])] + Words(s[n..])
  {
    hide UpperAll, Inner;
    RunIs(s[1..], n - 1);
  }

  lemma Regroup(a: seq<string>, b: seq<string>, c: seq<string>)
    ensures a + (b + c) == (a + b) + c
  {
  }

  /** Cutting a text at a separator cuts no word. */
  lemma {:induction false} CutAtSeparator(s: string, i: nat)
    requires i <= |s| && (i < |s| ==> Sep(s[i]))
    ensures Words(s) == Words(s[..i]) + Words(s[i..])
    decreases |s|
  {
    hide Words, UpperAll;
    if i == 0 {
      assert s[..0] == [] && s[0..] == s;
      NoWord(s[..0]);
    } else if !Letter(s[0]) {
      NoWord(s);
      NoWord(s[..i]);
      CutAtSeparator(s[1..], i - 1);
      assert s[..i][1..] == s[1..][..i - 1] && s[1..][i - 1..] == s[i..];
    } else {
      var n := 1 + Run(s[1..]);
      FirstWord(s, n);
      FirstWord(s[..i], n);
      CutAtSeparator(s[n..], i - n);
      assert s[..i][..n] == s[..n] && s[..i][n..] == s[n..][..i - n] && s[n..][i - n..] == s[i..];
      Regroup([UpperAll(s[..n])], Words(s[..i][n..]), Words(s[i..]));
    }
  }

  // ---------------------------------------------------------------- the words in plain characters

  predicate Alphabetic(c: char) { 'A' <= c <= 'Z' || 'a' <= c <= 'z' }

  /** `w` is the letter `c` as a capital. */
  predicate Capital(c: char, w: char)
  {
    || ('A' <= c <= 'Z' && w == c)
    || ('a' <= c <= 'z' && 'A' <= w <= 'Z' && w as int - 'A' as int == c as int - 'a' as int)
  }

  datatype Span = Span(from: nat, to: nat)

  /** The text has the word `w` at `p`: it begins with a letter there, goes on with letters and apostrophes, and could
      not go on further. */
  ghost predicate StandsAt(s: string, w: string, p: Span)
  {
    && p.from < p.to <= |s| && |w| == p.to - p.from && Alphabetic(s[p.from])
    && (forall i {:trigger w[i]} :: 0 <= i < |w| ==>
          Capital(s[p.from + i], w[i]) || (s[p.from + i] == '\'' && w[i] == '\''))
    && (p.to < |s| ==> !Alphabetic(s[p.to]) && s[p.to] != '\'')
  }

  /** From `i` on the text has these words, one behind the other, and no letter outside of them. */
  ghost predicate WordsAt(s: string, i: nat, words: seq<string>, spans: seq<Span>)
  {
    && |words| == |spans|
    && (forall j {:trigger spans[j]} :: 0 <= j < |spans| ==> StandsAt(s, words[j], spans[j]) && i <= spans[j].from)
    && (forall j, k {:trigger spans[j], spans[k]} :: 0 <= j < k < |spans| ==> spans[j].to <= spans[k].from)
    && (forall l {:trigger s[l]} :: i <= l < |s| && Alphabetic(s[l]) ==>
          exists j {:trigger spans[j]} :: 0 <= j < |spans| && spans[j].from <= l < spans[j].to)
  }

  lemma {:induction false} WordsAreAt(s: string, i: nat) returns (spans: seq<Span>)
    requires i <= |s|
    ensures WordsAt(s, i, Words(s[i..]), spans)
    decreases |s| - i
  {
    hide WordsAt, StandsAt, Words;
    if i == |s| {
      spans := [];
      NoWord(s[i..]);
      NoneAt(s);
    } else if !Letter(s[i]) {
      spans := WordsAreAt(s, i + 1);
      NoWord(s[i..]);
      assert s[i..][1..] == s[i + 1..];
      NotALetter(s, i, Words(s[i + 1..]), spans);
    } else {
      var n := 1 + Run(s[i + 1..]);
      var rest := WordsAreAt(s, i + n);
      spans := [Span(i, i + n)] + rest;
      assert s[i..][1..] == s[i + 1..] && s[i..][n..] == s[i + n..] && s[i..][..n] == s[i..i + n];
      forall j | 0 < j < n ensures Inner(s[i..][j]) { assert s[i..][j] == s[i + 1..][j - 1]; }
      FirstWord(s[i..], n);
      OneWordAt(s, i, n);
      MoreWordsAt(s, i, Span(i, i + n), UpperAll(s[i..i + n]), Words(s[i + n..]), rest);
    }
  }

  lemma NoneAt(s: string)
    ensures WordsAt(s, |s|, [], [])
  {
  }

  lemma NotALetter(s: string, i: nat, words: seq<string>, spans: seq<Span>)
    requires i < |s| && !Letter(s[i]) && WordsAt(s, i + 1, words, spans)
    ensures WordsAt(s, i, words, spans)
  {
    hide StandsAt;
  }

  lemma OneWordAt(s: string, i: nat, n: nat)
    requires 0 < n && i + n <= |s| && Letter(s[i]) && (i + n < |s| ==> !Inner(s[i + n]))
    requires forall j :: 0 < j < n ==> Inner(s[i..][j])
    ensures StandsAt(s, UpperAll(s[i..i + n]), Span(i, i + n))
  {
    var w := UpperAll(s[i..i + n]);
    forall j | 0 <= j < n ensures Capital(s[i + j], w[j]) || (s[i + j] == '\'' && w[j] == '\'') {
      assert s[i..][j] == s[i + j] && w[j] == Upper(s[i + j]);
    }
  }

  lemma MoreWordsAt(s: string, i: nat, p: Span, w: string, words: seq<string>, spans: seq<Span>)
    requires StandsAt(s, w, p) && p.from == i && WordsAt(s, p.to, words, spans)
    ensures WordsAt(s, i, [w] + words, [p] + spans)
  {
    hide StandsAt, Alphabetic;
    SpanIs(s, w, p);
    var spans' := [p] + spans;
    forall l | i <= l < |s| && Alphabetic(s[l])
      ensures exists j {:trigger spans'[j]} :: 0 <= j < |spans'| && spans'[j].from <= l < spans'[j].to
    {
      if l < p.to {
        assert spans'[0].from <= l < spans'[0].to;
      } else {
        var j :| 0 <= j < |spans| && spans[j].from <= l < spans[j].to;
        assert spans'[j + 1] == spans[j];
      }
    }
  }

  lemma SpanIs(s: string, w: string, p: Span)
    requires StandsAt(s, w, p)
    ensures p.from < p.to <= |s|
  {
  }

  /** The two texts have the same letters, up to capitals. */
  ghost predicate SameButForCase(s: string, t: string)
  {
    |s| == |t| && forall i :: 0 <= i < |s| ==> s[i] == t[i] || Capital(s[i], t[i]) || Capital(t[i], s[i])
  }

  lemma {:induction false} SameRun(s: string, t: string)
    requires SameButForCase(s, t)
    ensures Run(s) == Run(t)
  {
    if s != [] && Inner(s[0]) {
      SameRun(s[1..], t[1..]);
    }
  }

  /** Texts that differ only in case have the same words. */
  lemma {:induction false} CaseDoesNotMatter(s: string, t: string)
    requires SameButForCase(s, t)
    ensures Words(s) == Words(t)
    decreases |s|
  {
    hide UpperAll;
    if s != [] {
      assert Upper(s[0]) == Upper(t[0]);
      if Letter(s[0]) {
        SameRun(s[1..], t[1..]);
        var n := 1 + Run(s[1..]);
        SameCapitals(s[..n], t[..n]);
        CaseDoesNotMatter(s[n..], t[n..]);
      } else {
        CaseDoesNotMatter(s[1..], t[1..]);
      }
    }
  }

  lemma SameCapitals(s: string, t: string)
    requires SameButForCase(s, t)
    ensures UpperAll(s) == UpperAll(t)
  {
    forall i | 0 <= i < |s| ensures Upper(s[i]) == Upper(t[i]) {}
  }

  // ---------------------------------------------------------------- wordcount_map

  /** The map function emits the words of its chunk, unless one of them is too long for the buffer */
  method Map(data: string) returns (emitted: seq<string>, ok: bool, ghost spans: seq<Span>)
    ensures ok <==> forall w :: w in Words(data) ==> |w| < MAX_KEY_LEN
    ensures ok ==> emitted == Words(data) && WordsAt(data, 0, emitted, spans)
  {
    hide Words, Scanned, UpperAll, WordsAt;
    spans := WordsAreAt(data, 0);
    assert data[0..] == data;
    emitted, ok := [], true;
    var inWord, tmpKey := false, "";
    ghost var start := 0;
    ScanBegins(data);
    for i := 0 to |data|
      invariant Scanned(data, i, emitted, inWord, start, tmpKey)
      invariant forall w :: w in emitted ==> |w| < MAX_KEY_LEN
      invariant inWord ==> |tmpKey| < MAX_KEY_LEN
    {
      var letter := Upper(data[i]);
      if inWord {
        if (letter < 'A' || letter > 'Z') && letter != '\'' {
          WordEnds(data, i, emitted, start, tmpKey);
          emitted := emitted + [tmpKey];
          inWord := false;
          BetweenWords(data, i, emitted, start, tmpKey);
        } else {
          WordGoesOn(data, i, emitted, start, tmpKey);
          tmpKey := tmpKey + [letter];
          if |tmpKey| >= MAX_KEY_LEN {
            TooLong(data, i + 1, emitted, start, tmpKey);
            return emitted, false, spans;
          }
        }
      } else if 'A' <= letter <= 'Z' {
        WordBegins(data, i, emitted, start, tmpKey);
        tmpKey := [letter];
        inWord, start := true, i;
      } else {
        BetweenWords(data, i, emitted, start, tmpKey);
      }
    }
    if inWord {
      WordEnds(data, |data|, emitted, start, tmpKey);
      emitted := emitted + [tmpKey];
    }
    ScanEnds(data, emitted, start, tmpKey);
  }

  /** The scanner before character `i`: what it emitted are the words before the current one, if any. */
  ghost predicate Scanned(data: string, i: nat, emitted: seq<string>, inWord: bool, start: nat, tmpKey: string)
  {
    && i <= |data|
    && (!inWord ==> Words(data) == emitted + Words(data[i..]))
    && (inWord ==>
          && start < i && Letter(data[start]) && (forall j :: start < j < i ==> Inner(data[j]))
          && tmpKey == UpperAll(data[start..i]) && Words(data) == emitted + Words(data[start..]))
  }

  lemma ScanBegins(data: string)
    ensures Scanned(data, 0, [], false, 0, "")
  {
    assert data[0..] == data;
  }

  lemma ScanEnds(data: string, emitted: seq<string>, start: nat, tmpKey: string)
    ensures Scanned(data, |data|, emitted, false, start, tmpKey) ==> Words(data) == emitted
  {
    assert data[|data|..] == [];
  }

  lemma BetweenWords(data: string, i: nat, emitted: seq<string>, start: nat, tmpKey: string)
    requires Scanned(data, i, emitted, false, start, tmpKey) && i < |data| && !Letter(data[i])
    ensures Scanned(data, i + 1, emitted, false, start, tmpKey)
  {
    hide Words;
    NoWord(data[i..]);
    assert data[i..][1..] == data[i + 1..];
  }

  lemma WordBegins(data: string, i: nat, emitted: seq<string>, start: nat, tmpKey: string)
    requires Scanned(data, i, emitted, false, start, tmpKey) && i < |data| && Letter(data[i])
    ensures Scanned(data, i + 1, emitted, true, i, [Upper(data[i])])
  {
    hide Words;
    assert data[i..i + 1] == [data[i]];
  }

  lemma WordGoesOn(data: string, i: nat, emitted: seq<string>, start: nat, tmpKey: string)
    requires Scanned(data, i, emitted, true, start, tmpKey) && i < |data| && Inner(data[i])
    ensures Scanned(data, i + 1, emitted, true, start, tmpKey + [Upper(data[i])])
  {
    hide Words;
    assert data[start..i + 1] == data[start..i] + [data[i]];
  }

  lemma WordEnds(data: string, i: nat, emitted: seq<string>, start: nat, tmpKey: string)
    requires Scanned(data, i, emitted, true, start, tmpKey) && (i < |data| ==> !Inner(data[i]))
    ensures Scanned(data, i, emitted + [tmpKey], false, start, tmpKey)
  {
    hide Words, UpperAll;
    var s, n := data[start..], i - start;
    FirstWord(s, n);
    assert s[..n] == data[start..i] && s[n..] == data[i..];
    Regroup(emitted, [tmpKey], Words(data[i..]));
  }

  /** A word of 256 characters or more is on its way. */
  lemma TooLong(data: string, i: nat, emitted: seq<string>, start: nat, tmpKey: string)
    requires Scanned(data, i, emitted, true, start, tmpKey) && |tmpKey| >= MAX_KEY_LEN
    ensures exists w :: w in Words(data) && |w| >= MAX_KEY_LEN
  {
    hide Words;
    var s := data[start..];
    var n := 1 + Run(s[1..]);
    forall j | 0 < j < i - start ensures Inner(s[j]) { assert s[j] == data[start + j]; }
    assert n >= i - start;
    FirstWord(s, n);
    var w := UpperAll(s[..n]);
    assert Words(data)[|emitted|] == w;
  }

  // ---------------------------------------------------------------- wordcount_splitter

  /** The first separator from `i` on, or the end. */
  function Boundary(s: string, i: nat): (j: nat)
    requires i <= |s|
    ensures i <= j <= |s| && (j < |s| ==> Sep(s[j])) && forall l :: i <= l < j ==> !Sep(s[l])
    decreases |s| - i
  {
    if i == |s| || Sep(s[i]) then i else Boundary(s, i + 1)
  }

  /** Where the splitter goes from `p`. */
  function NextPos(s: string, size: nat, p: nat): nat
    requires p <= |s|
  {
    Boundary(s, if p + size > |s| then |s| else p + size)
  }

  datatype Chunk = Chunk(start: nat, length: nat)

  class Input {
    const fdata: string
    var fpos: nat

    constructor (fdata: string)
      ensures this.fdata == fdata && fpos == 0
    {
      this.fdata, fpos := fdata, 0;
    }

    /** wordcount_splitter: a chunk that ends at a separator or at the end of the file */
    method Splitter(nsplits: nat) returns (more: bool, chunk: Chunk)
      requires nsplits > 0 && fpos <= |fdata|
      modifies this
      ensures more == (old(fpos) < |fdata|)
      ensures !more ==> fpos == old(fpos)
      ensures more ==> fpos == NextPos(fdata, |fdata| / nsplits, old(fpos))
      ensures more ==> chunk == Chunk(old(fpos), fpos - old(fpos))
    {
      var splitSize := |fdata| / nsplits;
      if fpos >= |fdata| { return false, Chunk(0, 0); }
      var start, length := fpos, splitSize;
      if fpos + length > |fdata| {
        length := |fdata| - fpos;
      }
      fpos := fpos + length;
      while fpos < |fdata| && !Sep(fdata[fpos])
        invariant start <= fpos <= |fdata| && length == fpos - start
        invariant NextPos(fdata, splitSize, start) == Boundary(fdata, fpos)
      {
        fpos, length := fpos + 1, length + 1;
      }
      return true, Chunk(start, length);
    }
  }

  // ---------------------------------------------------------------- termination

  predicate NoSep(s: string) { forall i :: 0 <= i < |s| ==> !Sep(s[i]) }

  /** The splitter's position after `k` calls. */
  function PosAfter(s: string, size: nat, k: nat): (p: nat)
    ensures p <= |s|
  {
    if k == 0 then 0 else NextPos(s, size, PosAfter(s, size, k - 1))
  }

  /** The splitter moves on as long as its chunks are not empty by definition. */
  lemma Progress(s: string, size: nat, p: nat)
    requires p < |s| && (size > 0 || !Sep(s[p]))
    ensures NextPos(s, size, p) > p
  {
  }

  lemma {:induction false} PosGrows(s: string, size: nat, k: nat)
    requires size > 0
    ensures PosAfter(s, size, k) >= k || PosAfter(s, size, k) == |s|
  {
    if k > 0 {
      PosGrows(s, size, k - 1);
      var p := PosAfter(s, size, k - 1);
      if p < |s| { Progress(s, size, p); }
    }
  }

  lemma {:induction false} StuckAtSeparator(s: string, k: nat)
    requires !NoSep(s)
    ensures PosAfter(s, 0, k) <= Boundary(s, 0) < |s|
  {
    if k > 0 { StuckAtSeparator(s, k - 1); }
    var i :| 0 <= i < |s| && Sep(s[i]);
    BoundaryMono(s, if k == 0 then 0 else PosAfter(s, 0, k - 1));
  }

  /** From anywhere up to the first separator, the splitter gets no further than it. */
  lemma BoundaryMono(s: string, p: nat)
    requires p <= |s| && p <= Boundary(s, 0)
    ensures Boundary(s, p) == Boundary(s, 0)
  {
    BoundaryIs(s, p, Boundary(s, 0));
  }

  lemma {:induction false} BoundaryIs(s: string, i: nat, j: nat)
    requires i <= j <= |s| && (j < |s| ==> Sep(s[j])) && forall l :: i <= l < j ==> !Sep(s[l])
    ensures Boundary(s, i) == j
    decreases j - i
  {
    if i < j { BoundaryIs(s, i + 1, j); }
  }

  lemma EndsBySize(s: string, size: nat)
    requires size > 0
    ensures exists k :: PosAfter(s, size, k) == |s|
  {
    PosGrows(s, size, |s|);
    assert PosAfter(s, size, |s|) == |s|;
  }

  lemma EndsWithoutSeparator(s: string, size: nat)
    requires NoSep(s)
    ensures exists k :: PosAfter(s, size, k) == |s|
  {
    assert PosAfter(s, size, 0) == 0;
    assert PosAfter(s, size, 1) == NextPos(s, size, 0) == |s|;
  }

  lemma NeverEnds(s: string)
    requires !NoSep(s)
    ensures forall k :: PosAfter(s, 0, k) != |s|
  {
    forall k ensures PosAfter(s, 0, k) != |s| { StuckAtSeparator(s, k); }
  }

  lemma Quotient(a: nat, b: nat)
    requires 0 < b
    ensures a / b > 0 <==> a >= b
  {
  }

  /** Splitting ends if and only if there are at least as many characters as splits, or no separator at all:
      otherwise the chunk size is zero and the splitter stays at the first separator for ever. */
  lemma SplittingEndsIff(s: string, nsplits: nat)
    requires nsplits > 0
    ensures (exists k :: PosAfter(s, |s| / nsplits, k) == |s|) <==> (|s| >= nsplits || NoSep(s))
  {
    hide PosAfter, NoSep;
    Quotient(|s|, nsplits);
    var size := |s| / nsplits;
    if size > 0 {
      EndsBySize(s, size);
    } else if NoSep(s) {
      EndsWithoutSeparator(s, size);
    } else {
      NeverEnds(s);
    }
  }

  // ---------------------------------------------------------------- splitting and mapping a whole file

  ghost predicate Tiles(chunks: seq<Chunk>, end: nat)
  {
    if chunks == [] then end == 0
    else
      var c := chunks[|chunks| - 1];
      c.start + c.length == end && Tiles(chunks[..|chunks| - 1], c.start)
  }

  ghost function WordsOf(s: string, chunks: seq<Chunk>): seq<string>
    requires Inside(chunks, |s|)
  {
    if chunks == [] then []
    else
      var c := chunks[|chunks| - 1];
      WordsOf(s, chunks[..|chunks| - 1]) + Words(s[c.start..c.start + c.length])
  }

  ghost predicate Inside(chunks: seq<Chunk>, n: nat)
  {
    forall i :: 0 <= i < |chunks| ==> chunks[i].start + chunks[i].length <= n
  }

  /** The splitter is between words. */
  ghost predicate AtBoundary(s: string, p: nat) { p <= |s| && (p < |s| ==> p == 0 || Sep(s[p])) }

  lemma NextChunk(s: string, chunks: seq<Chunk>, p: nat, q: nat)
    requires p <= q <= |s| && AtBoundary(s, p) && Tiles(chunks, p)
    requires Inside(chunks, |s|) && WordsOf(s, chunks) == Words(s[..p])
    ensures var chunks' := chunks + [Chunk(p, q - p)];
      Tiles(chunks', q) && Inside(chunks', |s|) && WordsOf(s, chunks') == Words(s[..q])
  {
    hide Words;
    var t, chunks' := s[..q], chunks + [Chunk(p, q - p)];
    assert chunks'[..|chunks|] == chunks;
    if p == 0 {
      assert t[..0] == [] && t[0..] == t;
      NoWord(t[..0]);
    } else {
      CutAtSeparator(t, p);
    }
    assert t[..p] == s[..p] && t[p..] == s[p..q];
  }

  /** All chunks of a file: they tile it, and no word is cut */
  method SplitAll(fdata: string, nsplits: nat) returns (chunks: seq<Chunk>)
    requires nsplits > 0 && (|fdata| >= nsplits || NoSep(fdata))
    ensures Tiles(chunks, |fdata|) && Inside(chunks, |fdata|) && WordsOf(fdata, chunks) == Words(fdata)
  {
    hide Words, Tiles, WordsOf, NextPos, Inside;
    var input := new Input(fdata);
    chunks := [];
    var more, chunk := true, Chunk(0, 0);
    NothingSplit(fdata);
    Quotient(|fdata|, nsplits);
    while more
      invariant input.fdata == fdata && AtBoundary(fdata, input.fpos)
      invariant Tiles(chunks, input.fpos) && Inside(chunks, |fdata|)
      invariant WordsOf(fdata, chunks) == Words(fdata[..input.fpos])
      invariant !more ==> input.fpos == |fdata|
      decreases |fdata| - input.fpos, more
    {
      ghost var p := input.fpos;
      more, chunk := input.Splitter(nsplits);
      if more {
        Progress(fdata, |fdata| / nsplits, p);
        NextIsBoundary(fdata, |fdata| / nsplits, p);
        NextChunk(fdata, chunks, p, input.fpos);
        chunks := chunks + [chunk];
      }
    }
    assert fdata[..|fdata|] == fdata;
  }

  lemma NothingSplit(s: string)
    ensures Tiles([], 0) && Inside([], |s|) && WordsOf(s, []) == Words(s[..0])
  {
    assert s[..0] == [];
  }

  lemma NextIsBoundary(s: string, size: nat, p: nat)
    requires p <= |s|
    ensures p <= NextPos(s, size, p) <= |s| && AtBoundary(s, NextPos(s, size, p))
  {
  }

  /** Mapping the chunks one after the other emits exactly the words of the whole file */
  method CountWords(fdata: string, nsplits: nat, ncores: nat)
    returns (emitted: seq<string>, ok: bool, ghost spans: seq<Span>)
    requires ncores > 0
    requires var n := if nsplits == 0 then ncores * DEF_NSPLITS_PER_CORE else nsplits; |fdata| >= n || NoSep(fdata)
    ensures ok ==> emitted == Words(fdata) && WordsAt(fdata, 0, emitted, spans)
    ensures ok <==> forall w :: w in Words(fdata) ==> |w| < MAX_KEY_LEN
  {
    hide Words, WordsAt;
    spans := WordsAreAt(fdata, 0);
    assert fdata[0..] == fdata;
    var n := if nsplits == 0 then ncores * DEF_NSPLITS_PER_CORE else nsplits;
    var chunks := SplitAll(fdata, n);
    emitted, ok := [], true;
    for i := 0 to |chunks|
      invariant ok && emitted == WordsOf(fdata, chunks[..i]) && forall w :: w in emitted ==> |w| < MAX_KEY_LEN
    {
      var c := chunks[i];
      var words;
      ghost var places;
      words, ok, places := Map(fdata[c.start..c.start + c.length]);
      assert chunks[..i + 1][..i] == chunks[..i];
      WordsIncluded(fdata, chunks, i, Words(fdata[c.start..c.start + c.length]));
      if !ok { return; }
      emitted := emitted + words;
    }
    assert chunks[..|chunks|] == chunks;
  }

  lemma {:induction false} WordsIncluded(s: string, chunks: seq<Chunk>, i: nat, ws: seq<string>)
    requires Inside(chunks, |s|)
    requires i < |chunks| && ws == Words(s[chunks[i].start..chunks[i].start + chunks[i].length])
    ensures forall w :: w in ws ==> w in WordsOf(s, chunks)
  {
    hide Words;
    var n := |chunks| - 1;
    if i < n { WordsIncluded(s, chunks[..n], i, ws); }
  }
}
