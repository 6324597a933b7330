/** `limitSentences`: shortening a model reply to at most a few sentence chunks and at
    most 180 characters. The text is split at `/([.!?])\s+/` (a terminator followed by
    whitespace), each chunk keeps its terminator and is trimmed, the first chunks are
    joined with single blanks, an overlong result is cut to 177 characters plus an ellipsis,
    and runs of line feeds collapse to one. */
module Sentences {
  import opened Wrappers
  import opened JsString

  const MaxReplyLength := 180
  const CutLength := 177
  const Ellipsis: char := '\U{2026}'
  /** The default of the `maxSentences` parameter, the one the handlers use. */
  const DefaultMaxSentences := 2

  predicate IsTerminator(c: char) {
    c == '.' || c == '!' || c == '?'
  }

  /** The boundary pattern `[.!?]\s+` can start matching at index `k`. */
  predicate BoundaryAt(s: string, k: nat) {
    k + 1 < |s| && IsTerminator(s[k]) && IsSpace(s[k + 1])
  }

  /** The leftmost boundary at or after `from`, where a left-to-right split finds it. */
  function FirstBoundary(s: string, from: nat): (r: Option<nat>)
    ensures r.Some? ==> from <= r.value && BoundaryAt(s, r.value)
    decreases |s| - from
  {
    if from + 1 >= |s| then None
    else if BoundaryAt(s, from) then Some(from)
    else FirstBoundary(s, from + 1)
  }

  /** No boundary lies between `from` and the one found, and none at all when none is found. */
  lemma {:induction false} FirstBoundaryIsFirst(s: string, from: nat)
    ensures FirstBoundary(s, from).Some? ==>
      forall k :: from <= k < FirstBoundary(s, from).value ==> !BoundaryAt(s, k)
    ensures FirstBoundary(s, from).None? ==> forall k :: from <= k < |s| ==> !BoundaryAt(s, k)
    decreases |s| - from
  {
    if from + 1 < |s| && !BoundaryAt(s, from) {
      FirstBoundaryIsFirst(s, from + 1);
    }
  }

  /** Where the greedy `\s+` that starts at `i` stops. */
  function SpaceRunEnd(s: string, i: nat): (e: nat)
    requires i <= |s|
    ensures i <= e <= |s|
    decreases |s| - i
  {
    if i < |s| && IsSpace(s[i]) then SpaceRunEnd(s, i + 1) else i
  }

  /** The run consumed is whitespace, and it is maximal. */
  lemma {:induction false} SpaceRunShape(s: string, i: nat)
    requires i <= |s|
    ensures AllSpace(s[i..SpaceRunEnd(s, i)])
    ensures SpaceRunEnd(s, i) < |s| ==> !IsSpace(s[SpaceRunEnd(s, i)])
    decreases |s| - i
  {
    if i < |s| && IsSpace(s[i]) {
      SpaceRunShape(s, i + 1);
      assert s[i..SpaceRunEnd(s, i)] == [s[i]] + s[i + 1..SpaceRunEnd(s, i + 1)];
    }
  }

  /** `s.split(/([.!?])\s+/)`: the text between boundaries, each followed by the captured
      terminator, ending with the text after the last boundary; the whitespace runs are
      dropped. */
  function SplitAtBoundaries(s: string): (r: seq<string>)
    ensures |r| % 2 == 1
    decreases |s|
  {
    match FirstBoundary(s, 0)
    case None => [s]
    case Some(k) => [s[..k], [s[k]]] + SplitAtBoundaries(s[SpaceRunEnd(s, k + 1)..])
  }

  /** The sentence chunks of `s`: every piece up to and including a terminator that is
      followed by whitespace, then the rest; each one trimmed. */
  function SentenceChunks(s: string): (r: seq<string>)
    ensures |r| >= 1
    decreases |s|
  {
    match FirstBoundary(s, 0)
    case None => [Trim(s)]
    case Some(k) => [Trim(s[..k + 1])] + SentenceChunks(s[SpaceRunEnd(s, k + 1)..])
  }

  /** The first `n` chunks, or all of them when there are fewer (`parts.slice(0, n)`). */
  function Take(parts: seq<string>, n: nat): (r: seq<string>)
    ensures |r| <= n && r <= parts
    ensures |r| == if n < |parts| then n else |parts|
  {
    if n < |parts| then parts[..n] else parts
  }

  /** The joined chunks before the length limit is applied. */
  function Kept(text: string, maxSentences: nat): string {
    Join(Take(SentenceChunks(text), maxSentences), " ")
  }

  /** What `limitSentences(text, maxSentences)` returns. */
  function LimitedReply(text: string, maxSentences: nat): string {
    var joined := Kept(text, maxSentences);
    CollapseNewlines(if |joined| > MaxReplyLength then Trim(joined[..CutLength]) + [Ellipsis] else joined)
  }

  /** What the reduce callback pushes for the even index `2j` of the split:
      `(arr[2j] + (arr[2j + 1] || '')).trim()`. */
  function ReducedAt(arr: seq<string>, j: nat): string
    requires 2 * j < |arr|
  {
    Trim(arr[2 * j] + (if 2 * j + 1 < |arr| then arr[2 * j + 1] else ""))
  }

  /** Everything the reduce pushes, in order: one trimmed chunk per even index. */
  function Reduced(arr: seq<string>): (r: seq<string>)
    requires |arr| % 2 == 1
    ensures 2 * |r| == |arr| + 1
    decreases |arr|
  {
    if |arr| == 1 then [ReducedAt(arr, 0)] else [ReducedAt(arr, 0)] + Reduced(arr[2..])
  }

  /** The reduce over the split yields exactly the sentence chunks. */
  lemma {:induction false} ChunksAreReduced(s: string)
    ensures SentenceChunks(s) == Reduced(SplitAtBoundaries(s))
    decreases |s|
  {
    match FirstBoundary(s, 0)
    case None =>
      assert s + "" == s;
    case Some(k) =>
      var rest := s[SpaceRunEnd(s, k + 1)..];
      var arr := SplitAtBoundaries(s);
      assert arr == [s[..k], [s[k]]] + SplitAtBoundaries(rest);
      assert arr[2..] == SplitAtBoundaries(rest);
      assert arr[0] + arr[1] == s[..k + 1];
      ChunksAreReduced(rest);
  }

  /** Dropping the first two entries of the split shifts what the reduce pushes by one. */
  lemma ReducedAtTail(arr: seq<string>, j: nat)
    requires 2 * j + 2 < |arr|
    ensures ReducedAt(arr[2..], j) == ReducedAt(arr, j + 1)
  {
    assert arr[2..][2 * j] == arr[2 * j + 2];
    assert 2 * j + 1 < |arr[2..]| ==> arr[2..][2 * j + 1] == arr[2 * j + 3];
  }

  /** A sequence that holds, at each position `j`, what the reduce pushes for index `2j`,
      and has one entry per chunk, is the whole reduction. */
  lemma {:induction false} ReducedMatches(arr: seq<string>, acc: seq<string>)
    requires |arr| % 2 == 1 && 2 * |acc| == |arr| + 1
    requires forall j :: 0 <= j < |acc| ==> acc[j] == ReducedAt(arr, j)
    ensures acc == Reduced(arr)
    decreases |arr|
  {
    if |arr| == 1 {
      assert acc == [acc[0]];
    } else {
      var tail, rest := arr[2..], acc[1..];
      forall j | 0 <= j < |rest|
        ensures rest[j] == ReducedAt(tail, j)
      {
        ReducedAtTail(arr, j);
        assert rest[j] == acc[j + 1];
      }
      ReducedMatches(tail, rest);
      assert acc[0] == ReducedAt(arr, 0);
      assert acc == [acc[0]] + rest;
    }
  }

  /** Pushing what the reduce pushes for the next even index extends a reduction prefix. */
  lemma PushReduced(arr: seq<string>, acc: seq<string>, x: string)
    requires 2 * |acc| < |arr| && x == ReducedAt(arr, |acc|)
    requires forall j :: 0 <= j < |acc| ==> acc[j] == ReducedAt(arr, j)
    ensures forall j :: 0 <= j < |acc + [x]| ==> (acc + [x])[j] == ReducedAt(arr, j)
  {
  }

  /** The `reduce` of `limitSentences` over the split, written as the loop it is: at
      every even index it pushes that piece and the terminator after it, trimmed. */
  method ReducePieces(arr: seq<string>) returns (acc: seq<string>)
    requires |arr| % 2 == 1
    ensures acc == Reduced(arr)
  {
    acc := [];
    var i := 0;
    while i < |arr|
      invariant 0 <= i <= |arr|
      invariant 2 * |acc| == i + i % 2
      invariant forall j :: 0 <= j < |acc| ==> acc[j] == ReducedAt(arr, j)
    {
      if i % 2 == 0 {
        var piece := arr[i] + (if i + 1 < |arr| then arr[i + 1] else "");
        assert 2 * |acc| == i;
        PushReduced(arr, acc, Trim(piece));
        acc := acc + [Trim(piece)];
      }
      i := i + 1;
    }
    ReducedMatches(arr, acc);
  }

  /** `limitSentences(text, maxSentences)`. */
  method LimitSentences(text: string, maxSentences: nat) returns (out: string)
    ensures out == LimitedReply(text, maxSentences)
  {
    var arr := SplitAtBoundaries(text);
    var acc := ReducePieces(arr);
    ChunksAreReduced(text);
    out := Join(Take(acc, maxSentences), " ");
    if |out| > MaxReplyLength {
      out := Trim(out[..CutLength]) + [Ellipsis];
    }
    out := CollapseNewlines(out);
  }

  /** The length bound and the line-feed rule of the shortened reply. */
  lemma LimitedReplyShape(text: string, maxSentences: nat)
    ensures |LimitedReply(text, maxSentences)| <= MaxReplyLength
    ensures NoDoubleNewline(LimitedReply(text, maxSentences))
    ensures |Kept(text, maxSentences)| > MaxReplyLength ==>
      var r := LimitedReply(text, maxSentences);
      |r| <= CutLength + 1 && |r| > 0 && r[|r| - 1] == Ellipsis
  {
    var joined := Kept(text, maxSentences);
    if |joined| > MaxReplyLength {
      CollapseAppend(Trim(joined[..CutLength]), Ellipsis);
    }
  }

  /** A short reply with no double line feed is returned exactly as joined. */
  lemma ShortReplyUnchanged(text: string, maxSentences: nat)
    requires |Kept(text, maxSentences)| <= MaxReplyLength
    requires NoDoubleNewline(Kept(text, maxSentences))
    ensures LimitedReply(text, maxSentences) == Kept(text, maxSentences)
  {
    CollapseIdentity(Kept(text, maxSentences));
  }

  /** Splitting and trimming the chunks loses whitespace only: the chunks, in order,
      spell the whole text. */
  lemma {:induction false} ChunksKeepText(s: string)
    ensures RemoveSpaces(Concat(SentenceChunks(s))) == RemoveSpaces(s)
    decreases |s|
  {
    var chunks := SentenceChunks(s);
    match FirstBoundary(s, 0)
    case None =>
      TrimKeepsText(s);
      ConcatCons(Trim(s), []);
    case Some(k) =>
      var e := SpaceRunEnd(s, k + 1);
      var head, rest := Trim(s[..k + 1]), SentenceChunks(s[e..]);
      ConcatCons(head, rest);
      ChunksKeepText(s[e..]);
      HeadKeepsText(s, k + 1, head, Concat(rest));
  }

  /** One step of the above: a trimmed head, then text that spells what follows the
      whitespace run after it. */
  lemma HeadKeepsText(s: string, i: nat, head: string, tail: string)
    requires i <= |s| && head == Trim(s[..i])
    requires RemoveSpaces(tail) == RemoveSpaces(s[SpaceRunEnd(s, i)..])
    ensures RemoveSpaces(head + tail) == RemoveSpaces(s)
  {
    TrimKeepsText(s[..i]);
    RemoveSpacesAppend(head, tail);
    CutKeepsText(s, i);
  }

  /** Cutting before a whitespace run and after it drops only that run. */
  lemma CutKeepsText(s: string, i: nat)
    requires i <= |s|
    ensures RemoveSpaces(s) == RemoveSpaces(s[..i]) + RemoveSpaces(s[SpaceRunEnd(s, i)..])
  {
    var e := SpaceRunEnd(s, i);
    SpaceRunShape(s, i);
    assert s == s[..i] + s[i..e] + s[e..];
    RemoveSpacesAround(s[..i], s[i..e], s[e..]);
  }

  predicate EndsWithTerminator(x: string) {
    |x| > 0 && IsTerminator(x[|x| - 1])
  }

  /** The chunk cut off before the boundary at `k` ends with its terminator. */
  lemma HeadEndsWithTerminator(s: string, k: nat)
    requires BoundaryAt(s, k)
    ensures EndsWithTerminator(Trim(s[..k + 1]))
    ensures Trim(s[..k + 1])[|Trim(s[..k + 1])| - 1] == s[k]
  {
    var head := s[..k + 1];
    assert head[|head| - 1] == s[k];
    TrimKeepsLast(head);
  }

  /** Every chunk but the last ends with the terminator it was split after. */
  lemma {:induction false} ChunksEndWithTerminator(s: string)
    ensures forall j :: 0 <= j < |SentenceChunks(s)| - 1 ==> EndsWithTerminator(SentenceChunks(s)[j])
    decreases |s|
  {
    match FirstBoundary(s, 0)
    case None =>
    case Some(k) =>
      var e := SpaceRunEnd(s, k + 1);
      var chunks, rest := SentenceChunks(s), SentenceChunks(s[e..]);
      ChunksEndWithTerminator(s[e..]);
      HeadEndsWithTerminator(s, k);
      assert chunks == [Trim(s[..k + 1])] + rest;
      forall j | 0 <= j < |chunks| - 1
        ensures EndsWithTerminator(chunks[j])
      {
        if j > 0 {
          assert chunks[j] == rest[j - 1];
        }
      }
  }

  /** The kept text is the beginning of the reply, in its original order, with at most
      `maxSentences` chunks; when the reply has no more chunks than that, all of its text
      is kept. */
  lemma KeptInOrder(text: string, maxSentences: nat)
    ensures |Take(SentenceChunks(text), maxSentences)| <= maxSentences
    ensures RemoveSpaces(Kept(text, maxSentences)) <= RemoveSpaces(text)
    ensures |SentenceChunks(text)| <= maxSentences ==>
      RemoveSpaces(Kept(text, maxSentences)) == RemoveSpaces(text)
  {
    var chunks := SentenceChunks(text);
    var kept := Take(chunks, maxSentences);
    JoinWithBlankKeepsText(kept);
    ChunksKeepText(text);
    PrefixKeepsText(chunks, |kept|);
  }

  /** A reply whose first sentence runs past the limit (no boundary in its first 180
      characters) is cut inside that sentence: its first 177 characters plus the ellipsis. */
  lemma LongFirstSentenceTruncated(text: string, maxSentences: nat)
    requires maxSentences >= 1
    requires Trim(text) == text && |text| > MaxReplyLength
    requires forall k :: 0 <= k < MaxReplyLength ==> !BoundaryAt(text, k)
    ensures LimitedReply(text, maxSentences) == CollapseNewlines(Trim(text[..CutLength]) + [Ellipsis])
  {
    var chunks := SentenceChunks(text);
    FirstBoundaryIsFirst(text, 0);
    match FirstBoundary(text, 0)
    case None =>
      assert chunks[0] == text;
    case Some(k) =>
      assert k >= MaxReplyLength;
      TrimOfTrimmed(text[..k + 1]);
      assert chunks[0] == text[..k + 1];
    JoinStartsWithFirst(Take(chunks, maxSentences), " ");
    var joined := Kept(text, maxSentences);
    assert chunks[0] <= joined;
    assert joined[..CutLength] == text[..CutLength];
  }

  /** No terminator occurs in `t`. */
  /** No boundary starts before index `k`: a terminator there is not followed by whitespace. */
  predicate NoBoundaryBefore(s: string, k: nat) {
    forall j :: 0 <= j < k ==> !BoundaryAt(s, j)
  }

  predicate NoTerminator(t: string) {
    '.' !in t && '!' !in t && '?' !in t
  }

  /** Text without a terminator before its last character holds no boundary there. */
  lemma TerminatorFree(x: string)
    requires |x| > 0 && NoTerminator(x[..|x| - 1])
    ensures NoBoundaryBefore(x, |x| - 1)
  {
    forall j | 0 <= j < |x| - 1
      ensures !BoundaryAt(x, j)
    {
      assert x[j] in x[..|x| - 1];
    }
  }

  /** When no boundary lies between `from` and `k`, a boundary at `k` is the first. */
  lemma {:induction false} FirstBoundaryAt(s: string, from: nat, k: nat)
    requires from <= k && BoundaryAt(s, k)
    requires forall j :: from <= j < k ==> !BoundaryAt(s, j)
    ensures FirstBoundary(s, from) == Some(k)
    decreases k - from
  {
    if from < k {
      FirstBoundaryAt(s, from + 1, k);
    }
  }

  /** A text with no boundary at or after `from` gives none. */
  lemma {:induction false} NoBoundaryIn(s: string, from: nat)
    requires forall j :: from <= j < |s| ==> !BoundaryAt(s, j)
    ensures FirstBoundary(s, from) == None
    decreases |s| - from
  {
    if from + 1 < |s| {
      NoBoundaryIn(s, from + 1);
    }
  }

  /** A whitespace run of length `n` that is followed by no further whitespace ends at `i + n`. */
  lemma {:induction false} SpaceRunOf(s: string, i: nat, n: nat)
    requires i + n <= |s| && AllSpace(s[i..i + n])
    requires i + n == |s| || !IsSpace(s[i + n])
    ensures SpaceRunEnd(s, i) == i + n
    decreases n
  {
    if n > 0 {
      assert s[i] == s[i..i + n][0];
      assert s[i + 1..i + n] == s[i..i + n][1..];
      SpaceRunOf(s, i + 1, n - 1);
    }
  }

  /** Appending text does not create a boundary before the last original character. */
  lemma NoBoundaryBeforeExtends(x: string, y: string)
    requires |x| > 0 && NoBoundaryBefore(x, |x| - 1)
    ensures NoBoundaryBefore(x + y, |x| - 1)
  {
    forall j | 0 <= j < |x| - 1
      ensures !BoundaryAt(x + y, j)
    {
      assert (x + y)[j] == x[j] && (x + y)[j + 1] == x[j + 1];
      assert !BoundaryAt(x, j);
    }
  }

  /** The first step of chunking, once the first boundary and the whitespace after it are known. */
  lemma ChunksAfter(s: string, x: string, e: nat, rest: string)
    requires |x| > 0 && FirstBoundary(s, 0) == Some(|x| - 1) && s[..|x|] == x
    requires SpaceRunEnd(s, |x|) == e && s[e..] == rest
    ensures SentenceChunks(s) == [Trim(x)] + SentenceChunks(rest)
  {
  }

  /** After a sentence and whitespace, the first boundary is the sentence's terminator. */
  lemma SentenceBoundary(x: string, y: string)
    requires |x| > 0 && NoBoundaryBefore(x, |x| - 1) && IsTerminator(x[|x| - 1])
    requires |y| > 0 && IsSpace(y[0])
    ensures FirstBoundary(x + y, 0) == Some(|x| - 1)
  {
    NoBoundaryBeforeExtends(x, y);
    assert (x + y)[|x| - 1] == x[|x| - 1] && (x + y)[|x|] == y[0];
    FirstBoundaryAt(x + y, 0, |x| - 1);
  }

  /** A text that opens with a sentence (text without a boundary before its last character,
      which is a terminator) and whitespace splits that sentence off first, and the rest is
      chunked on its own. */
  lemma SplitOffSentence(x: string, w: string, rest: string)
    requires |x| > 0 && NoBoundaryBefore(x, |x| - 1) && IsTerminator(x[|x| - 1])
    requires |w| > 0 && AllSpace(w) && (rest == [] || !IsSpace(rest[0]))
    ensures SentenceChunks(x + w + rest) == [Trim(x)] + SentenceChunks(rest)
  {
    var s := x + (w + rest);
    assert x + w + rest == s;
    assert FirstBoundary(s, 0) == Some(|x| - 1) by {
      SentenceBoundary(x, w + rest);
    }
    assert SpaceRunEnd(s, |x|) == |x| + |w| by {
      assert s[|x|..|x| + |w|] == w;
      SpaceRunOf(s, |x|, |w|);
    }
    assert s[..|x|] == x;
    assert s[|x| + |w|..] == rest;
    ChunksAfter(s, x, |x| + |w|, rest);
  }

  /** A text with no boundary before its last character is a single chunk. */
  lemma LastSentence(x: string)
    requires |x| > 0 && NoBoundaryBefore(x, |x| - 1)
    ensures SentenceChunks(x) == [Trim(x)]
  {
    NoBoundaryIn(x, 0);
  }

  /** One sentence: it does not start with whitespace, ends with a terminator and holds no
      boundary before that; an inner terminator not followed by whitespace, as in `3.5`,
      is allowed. */
  predicate IsSentence(x: string) {
    |x| > 0 && !IsSpace(x[0]) && IsTerminator(x[|x| - 1]) && NoBoundaryBefore(x, |x| - 1)
  }

  /** Chunking undoes joining: sentences joined with single blanks are chunked back into
      exactly those sentences. */
  lemma {:induction false} ChunksOfJoin(sentences: seq<string>)
    requires |sentences| > 0
    requires forall i :: 0 <= i < |sentences| ==> IsSentence(sentences[i])
    ensures SentenceChunks(Join(sentences, " ")) == sentences
    decreases |sentences|
  {
    var x := sentences[0];
    TrimOfTrimmed(x);
    if |sentences| == 1 {
      LastSentence(x);
    } else {
      var rest := sentences[1..];
      assert rest[0] == sentences[1];
      JoinStartsWithFirst(rest, " ");
      assert Join(rest, " ")[0] == rest[0][0];
      SplitOffSentence(x, " ", Join(rest, " "));
      assert Join(sentences, " ") == x + " " + Join(rest, " ");
      ChunksOfJoin(rest);
    }
  }

  /** Well-formed sentences joined with blanks come back as the first `maxSentences` of
      them, joined the same way, when those fit in the length limit and hold no line feed. */
  lemma SentencesKept(sentences: seq<string>, maxSentences: nat)
    requires |sentences| > 0
    requires forall i :: 0 <= i < |sentences| ==> IsSentence(sentences[i])
    requires |Join(Take(sentences, maxSentences), " ")| <= MaxReplyLength
    requires '\n' !in Join(Take(sentences, maxSentences), " ")
    ensures LimitedReply(Join(sentences, " "), maxSentences) == Join(Take(sentences, maxSentences), " ")
  {
    ChunksOfJoin(sentences);
    var r := Join(Take(sentences, maxSentences), " ");
    assert NoDoubleNewline(r) by {
      forall i | 0 <= i < |r| - 1
        ensures r[i] != '\n'
      {
        assert r[i] in r;
      }
    }
    CollapseIdentity(r);
  }

  /** Of three short sentences joined with blanks, two are kept. */
  lemma FirstTwoOfThree(s1: string, s2: string, s3: string)
    requires IsSentence(s1) && IsSentence(s2) && IsSentence(s3)
    requires |s1| + 1 + |s2| <= MaxReplyLength && '\n' !in s1 && '\n' !in s2
    ensures LimitedReply(s1 + " " + s2 + " " + s3, 2) == s1 + " " + s2
  {
    var chunks := [s1, s2, s3];
    assert chunks[1..][1..] == [s3];
    assert Join(chunks[1..], " ") == s2 + " " + s3;
    assert Join(chunks, " ") == s1 + " " + s2 + " " + s3 by {
      assert s1 + " " + (s2 + " " + s3) == s1 + " " + s2 + " " + s3;
    }
    var kept := Take(chunks, 2);
    assert kept == [s1, s2] && kept[1..] == [s2];
    assert Join(kept, " ") == s1 + " " + s2;
    SentencesKept(chunks, 2);
  }

  /** A worked example: of the three sentences of
      `"Hallo! Es sind 3.5 Grad. Wie geht's dir heute?"` the first two are kept, and the
      point inside `3.5` does not end a sentence. */
  lemma GreetingExample()
    ensures var s1, s2, s3 := "Hallo!", "Es sind 3.5 Grad.", "Wie geht's dir heute?";
      LimitedReply(s1 + " " + s2 + " " + s3, 2) == s1 + " " + s2
  {
    GreetingIsSentence();
    DecimalIsSentence();
    QuestionIsSentence();
    FirstTwoOfThree("Hallo!", "Es sind 3.5 Grad.", "Wie geht's dir heute?");
  }

  lemma GreetingIsSentence()
    ensures IsSentence("Hallo!")
  {
    var s := "Hallo!";
    assert s[..5] == "Hallo";
    TerminatorFree(s);
  }

  lemma QuestionIsSentence()
    ensures IsSentence("Wie geht's dir heute?")
  {
    var s := "Wie geht's dir heute?";
    assert s[..20] == "Wie geht's dir heute";
    TerminatorFree(s);
  }

  /** The point inside `3.5` is followed by a digit, so the sentence goes on past it. */
  lemma DecimalIsSentence()
    ensures IsSentence("Es sind 3.5 Grad.")
  {
    var s := "Es sind 3.5 Grad.";
    forall j | 0 <= j < |s| - 1
      ensures !BoundaryAt(s, j)
    {
      assert j == 9 || !IsTerminator(s[j]);
    }
  }
}
