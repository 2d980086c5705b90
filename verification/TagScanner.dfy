/** The scan for `<tag>(.*?)</tag>`: leftmost, then shortest matches, from left to right. */
module TagScanner {
  import opened Wrappers

  datatype Tag = Tag(open: string, close: string)

  const THINK := Tag("<think>", "</think>")
  const TOOL_CALL := Tag("<tool_call>", "</tool_call>")
  const TOOL_RESPONSE := Tag("<tool_response>", "</tool_response>")

  /** The pattern starts with its only '<', so it cannot overlap itself. */
  predicate Angled(pattern: string) {
    pattern != "" && pattern[0] == '<' && forall i :: 0 < i < |pattern| ==> pattern[i] != '<'
  }

  predicate WellFormedTag(tag: Tag) {
    Angled(tag.open) && Angled(tag.close)
  }

  lemma HermesTagsAreWellFormed()
    ensures WellFormedTag(THINK) && WellFormedTag(TOOL_CALL) && WellFormedTag(TOOL_RESPONSE)
  {
  }

  predicate OccursAt(pattern: string, text: string, i: nat) {
    i + |pattern| <= |text| && text[i..i + |pattern|] == pattern
  }

  ghost predicate Occurs(pattern: string, text: string) {
    exists i: nat :: OccursAt(pattern, text, i)
  }

  /** The first occurrence of the pattern, if any. */
  function Find(pattern: string, text: string): (r: Option<nat>)
    ensures r.None? ==> !Occurs(pattern, text)
    ensures r.Some? ==> OccursAt(pattern, text, r.value)
    ensures r.Some? ==> forall i: nat :: i < r.value ==> !OccursAt(pattern, text, i)
  {
    FindFrom(pattern, text, 0)
  }

  function FindFrom(pattern: string, text: string, from: nat): (r: Option<nat>)
    requires from <= |text|
    ensures r.None? ==> forall i: nat :: from <= i ==> !OccursAt(pattern, text, i)
    ensures r.Some? ==> from <= r.value && OccursAt(pattern, text, r.value)
    ensures r.Some? ==> forall i: nat :: from <= i < r.value ==> !OccursAt(pattern, text, i)
    decreases |text| - from
  {
    if OccursAt(pattern, text, from) then Some(from)
    else if from == |text| then None
    else FindFrom(pattern, text, from + 1)
  }

  /** The text before and after the first occurrence of the pattern. */
  function Cut(pattern: string, text: string): (r: Option<(string, string)>)
    ensures r.Some? ==> |r.value.0| + |pattern| + |r.value.1| == |text|
  {
    match Find(pattern, text)
    case None => None
    case Some(p) => Some((text[..p], text[p + |pattern|..]))
  }

  // ----- the scan -----

  /** A tagged block, with the plain text between it and the block before it. */
  datatype Block = Block(before: string, body: string)

  /** A text cut into tagged blocks and the plain text after the last one. */
  datatype Pieces = Pieces(blocks: seq<Block>, tail: string)

  function Scan(tag: Tag, text: string): Pieces
    requires WellFormedTag(tag)
    decreases |text|
  {
    match Cut(tag.open, text)
    case None => Pieces([], text)
    case Some((before, rest)) =>
      match Cut(tag.close, rest)
      case None => Pieces([], text)
      case Some((body, after)) =>
        var later := Scan(tag, after);
        Pieces([Block(before, body)] + later.blocks, later.tail)
  }

  function Bodies(pieces: Pieces): (bodies: seq<string>)
    ensures |bodies| == |pieces.blocks|
    ensures forall i :: 0 <= i < |bodies| ==> bodies[i] == pieces.blocks[i].body
  {
    seq(|pieces.blocks|, i requires 0 <= i < |pieces.blocks| => pieces.blocks[i].body)
  }

  /** `re.sub("", text)`: the text with every tagged block removed. */
  function Plain(pieces: Pieces): string
    decreases |pieces.blocks|
  {
    if pieces.blocks == [] then pieces.tail
    else pieces.blocks[0].before + Plain(Pieces(pieces.blocks[1..], pieces.tail))
  }

  function Print(tag: Tag, pieces: Pieces): string
    decreases |pieces.blocks|
  {
    if pieces.blocks == [] then pieces.tail
    else
      pieces.blocks[0].before
      + (tag.open + (pieces.blocks[0].body + (tag.close + Print(tag, Pieces(pieces.blocks[1..], pieces.tail)))))
  }

  // ----- cutting at the first occurrence -----

  lemma OccursAtPrefix(pattern: string, text: string, n: nat, i: nat)
    requires n <= |text|
    ensures OccursAt(pattern, text[..n], i) <==> i + |pattern| <= n && OccursAt(pattern, text, i)
  {
    if i + |pattern| <= n {
      assert text[..n][i..i + |pattern|] == text[i..i + |pattern|];
    }
  }

  lemma CutSplits(pattern: string, text: string, before: string, after: string)
    requires pattern != "" && Cut(pattern, text) == Some((before, after))
    ensures text == before + (pattern + after)
    ensures !Occurs(pattern, before)
  {
    var p := |before|;
    assert text[p..p + |pattern|] == pattern;
    forall i: nat ensures !OccursAt(pattern, before, i) {
      OccursAtPrefix(pattern, text, p, i);
    }
  }

  lemma OccurrenceAt(pattern: string, text: string, i: nat, k: nat)
    requires OccursAt(pattern, text, i)
    ensures i <= k < i + |pattern| ==> text[k] == pattern[k - i]
  {
    if i <= k < i + |pattern| {
      assert text[i..i + |pattern|][k - i] == text[k];
    }
  }

  /** Text without the pattern, followed by the pattern: an earlier occurrence would have to straddle. */
  lemma NoStraddling(pattern: string, plain: string, rest: string, i: nat)
    requires Angled(pattern) && i < |plain|
    requires OccursAt(pattern, plain + (pattern + rest), i)
    ensures OccursAt(pattern, plain, i)
  {
    var text := plain + (pattern + rest);
    var n := |plain|;
    OccurrenceAt(pattern, text, i, n);
    assert text[n] == pattern[0];
    assert text[..n] == plain;
    OccursAtPrefix(pattern, text, n, i);
  }

  lemma OccursAfter(pattern: string, plain: string, rest: string)
    ensures OccursAt(pattern, plain + (pattern + rest), |plain|)
  {
    var text := plain + (pattern + rest);
    assert text[|plain|..|plain| + |pattern|] == pattern;
  }

  /** After text without the pattern, the pattern itself is the first occurrence. */
  lemma CutAfterPlain(pattern: string, plain: string, rest: string)
    requires Angled(pattern) && !Occurs(pattern, plain)
    ensures Cut(pattern, plain + (pattern + rest)) == Some((plain, rest))
  {
    var text := plain + (pattern + rest);
    OccursAfter(pattern, plain, rest);
    if Find(pattern, text).value < |plain| {
      NoStraddling(pattern, plain, rest, Find(pattern, text).value);
    }
    assert text[..|plain|] == plain && text[|plain| + |pattern|..] == rest;
  }

  // ----- what the regular expression means -----

  /** The expression matches with its opener at p and its closer at q. */
  ghost predicate MatchAt(tag: Tag, text: string, p: nat, q: nat) {
    OccursAt(tag.open, text, p) && p + |tag.open| <= q && OccursAt(tag.close, text, q)
  }

  ghost predicate Matches(tag: Tag, text: string) {
    exists p: nat, q: nat :: MatchAt(tag, text, p, q)
  }

  /** The match that a search returns: leftmost, and among those the shortest. */
  ghost predicate FirstMatch(tag: Tag, text: string, p: nat, q: nat) {
    && MatchAt(tag, text, p, q)
    && forall p': nat, q': nat :: MatchAt(tag, text, p', q') ==> p < p' || (p == p' && q <= q')
  }

  /** Plain text holds no opener before a block, block bodies hold no closer, and the tail holds no match. */
  ghost predicate Canonical(tag: Tag, pieces: Pieces) {
    && (forall b :: b in pieces.blocks ==> !Occurs(tag.open, b.before) && !Occurs(tag.close, b.body))
    && !Matches(tag, pieces.tail)
  }

  lemma OccursAtSuffix(pattern: string, text: string, from: nat, i: nat)
    requires from <= |text| && from <= i
    ensures OccursAt(pattern, text, i) <==> OccursAt(pattern, text[from..], i - from)
  {
    if i + |pattern| <= |text| {
      assert text[from..][i - from..i - from + |pattern|] == text[i..i + |pattern|];
    }
  }

  /** Cutting at the opener and then at the closer finds the first match, and fails only without a match. */
  lemma CutsAreFirstMatch(tag: Tag, text: string)
    requires WellFormedTag(tag)
    ensures Cut(tag.open, text).None? ==> !Matches(tag, text)
    ensures Cut(tag.open, text).Some? && Cut(tag.close, Cut(tag.open, text).value.1).None? ==> !Matches(tag, text)
    ensures Cut(tag.open, text).Some? && Cut(tag.close, Cut(tag.open, text).value.1).Some? ==>
              var before, rest := Cut(tag.open, text).value.0, Cut(tag.open, text).value.1;
              var body := Cut(tag.close, rest).value.0;
              FirstMatch(tag, text, |before|, |before| + |tag.open| + |body|)
  {
    if Cut(tag.open, text).Some? {
      var p := |Cut(tag.open, text).value.0|;
      var from := p + |tag.open|;
      var rest := Cut(tag.open, text).value.1;
      assert rest == text[from..];
      forall p': nat, q': nat | MatchAt(tag, text, p', q')
        ensures Cut(tag.close, rest).Some? && p <= p' && from + |Cut(tag.close, rest).value.0| <= q'
      {
        OccursAtSuffix(tag.close, text, from, q');
        assert OccursAt(tag.close, rest, q' - from);
      }
      if Cut(tag.close, rest).Some? {
        OccursAtSuffix(tag.close, text, from, from + |Cut(tag.close, rest).value.0|);
      }
    }
  }

  /** Without a match the scan leaves the text alone. */
  lemma ScanWithoutMatch(tag: Tag, text: string)
    requires WellFormedTag(tag)
    ensures !Matches(tag, text) <==> Scan(tag, text) == Pieces([], text)
  {
    CutsAreFirstMatch(tag, text);
  }

  /** A scan that begins with a block, whose parts are given. */
  ghost predicate BeginsWith(tag: Tag, text: string, before: string, body: string, after: string)
    requires WellFormedTag(tag)
  {
    Scan(tag, text) == Pieces([Block(before, body)] + Scan(tag, after).blocks, Scan(tag, after).tail)
  }

  lemma ScanOnce(tag: Tag, text: string, before: string, rest: string, body: string, after: string)
    requires WellFormedTag(tag)
    requires Cut(tag.open, text) == Some((before, rest)) && Cut(tag.close, rest) == Some((body, after))
    ensures BeginsWith(tag, text, before, body, after)
  {
  }

  /** Where the parts of two cuts lie in the text. */
  lemma CutParts(tag: Tag, text: string, before: string, rest: string, body: string, after: string)
    requires Cut(tag.open, text) == Some((before, rest)) && Cut(tag.close, rest) == Some((body, after))
    ensures var p := |before|;
            var q := p + |tag.open| + |body|;
            && q + |tag.close| <= |text|
            && before == text[..p] && body == text[p + |tag.open|..q] && after == text[q + |tag.close|..]
  {
    var p := |before|;
    assert rest == text[p + |tag.open|..];
    assert body == rest[..|body|] && after == rest[|body| + |tag.close|..];
  }

  lemma SameBeginning(tag: Tag, text: string, b: string, c: string, a: string, b': string, c': string, a': string)
    requires WellFormedTag(tag) && BeginsWith(tag, text, b, c, a) && b == b' && c == c' && a == a'
    ensures BeginsWith(tag, text, b', c', a')
  {
  }

  /** With a match the scan takes the regular expression's first match and continues right after it. */
  lemma ScanTakesFirstMatch(tag: Tag, text: string) returns (p: nat, q: nat)
    requires WellFormedTag(tag) && Matches(tag, text)
    ensures FirstMatch(tag, text, p, q)
    ensures BeginsWith(tag, text, text[..p], text[p + |tag.open|..q], text[q + |tag.close|..])
  {
    CutsAreFirstMatch(tag, text);
    var before, rest := Cut(tag.open, text).value.0, Cut(tag.open, text).value.1;
    var body, after := Cut(tag.close, rest).value.0, Cut(tag.close, rest).value.1;
    p, q := |before|, |before| + |tag.open| + |body|;
    CutParts(tag, text, before, rest, body, after);
    ScanOnce(tag, text, before, rest, body, after);
    SameBeginning(tag, text, before, body, after, text[..p], text[p + |tag.open|..q], text[q + |tag.close|..]);
  }

  lemma PrintFirst(tag: Tag, block: Block, later: Pieces)
    ensures Print(tag, Pieces([block] + later.blocks, later.tail))
         == block.before + (tag.open + (block.body + (tag.close + Print(tag, later))))
  {
    var pieces := Pieces([block] + later.blocks, later.tail);
    assert pieces.blocks[1..] == later.blocks;
  }

  /** Printing the scan gives the text back, and the scan is canonical. */
  lemma {:induction false} ScanIsCanonical(tag: Tag, text: string)
    requires WellFormedTag(tag)
    ensures Print(tag, Scan(tag, text)) == text
    ensures Canonical(tag, Scan(tag, text))
    decreases |text|
  {
    CutsAreFirstMatch(tag, text);
    if Cut(tag.open, text).Some? && Cut(tag.close, Cut(tag.open, text).value.1).Some? {
      var before, rest := Cut(tag.open, text).value.0, Cut(tag.open, text).value.1;
      var body, after := Cut(tag.close, rest).value.0, Cut(tag.close, rest).value.1;
      CutSplits(tag.open, text, before, rest);
      CutSplits(tag.close, rest, body, after);
      ScanIsCanonical(tag, after);
      PrintFirst(tag, Block(before, body), Scan(tag, after));
    }
  }

  lemma ScanOfBlock(tag: Tag, block: Block, rest: string)
    requires WellFormedTag(tag) && !Occurs(tag.open, block.before) && !Occurs(tag.close, block.body)
    ensures var later := Scan(tag, rest);
            Scan(tag, block.before + (tag.open + (block.body + (tag.close + rest))))
            == Pieces([block] + later.blocks, later.tail)
  {
    CutAfterPlain(tag.open, block.before, block.body + (tag.close + rest));
    CutAfterPlain(tag.close, block.body, rest);
  }

  /** Scanning a printed canonical piece list returns it. */
  lemma {:induction false} ScanOfPrint(tag: Tag, pieces: Pieces)
    requires WellFormedTag(tag) && Canonical(tag, pieces)
    ensures Scan(tag, Print(tag, pieces)) == pieces
    decreases |pieces.blocks|
  {
    if pieces.blocks == [] {
      ScanWithoutMatch(tag, pieces.tail);
    } else {
      var later := Pieces(pieces.blocks[1..], pieces.tail);
      ScanOfPrint(tag, later);
      assert pieces.blocks[0] in pieces.blocks;
      ScanOfBlock(tag, pieces.blocks[0], Print(tag, later));
      assert pieces.blocks == [pieces.blocks[0]] + later.blocks;
    }
  }

  /** The scan is the only canonical split of a text. */
  lemma CanonicalSplitIsUnique(tag: Tag, pieces: Pieces)
    requires WellFormedTag(tag)
    ensures Canonical(tag, pieces) <==> pieces == Scan(tag, Print(tag, pieces))
  {
    if Canonical(tag, pieces) {
      ScanOfPrint(tag, pieces);
    }
    ScanIsCanonical(tag, Print(tag, pieces));
  }

  // ----- scanning twice -----

  /** Where, in the text without its blocks, the n-th block was taken out. */
  function Seam(pieces: Pieces, n: nat): nat
    requires n < |pieces.blocks|
    decreases n
  {
    |pieces.blocks[0].before| + if n == 0 then 0 else Seam(Pieces(pieces.blocks[1..], pieces.tail), n - 1)
  }

  /** The pattern occurs at p, with the n-th seam inside it. */
  ghost predicate Crosses(pattern: string, pieces: Pieces, n: nat, p: nat)
    requires n < |pieces.blocks|
  {
    OccursAt(pattern, Plain(pieces), p) && p < Seam(pieces, n) < p + |pattern|
  }

  /** Some opener lies across a seam, with a closer after it. */
  ghost predicate SeamMatches(tag: Tag, pieces: Pieces) {
    exists n: nat, p: nat, q: nat ::
      n < |pieces.blocks| && Crosses(tag.open, pieces, n, p) && MatchAt(tag, Plain(pieces), p, q)
  }

  lemma PlainFirst(pieces: Pieces)
    requires pieces.blocks != []
    ensures var first, later := pieces.blocks[0].before, Plain(Pieces(pieces.blocks[1..], pieces.tail));
            Plain(pieces) == first + later && Plain(pieces)[..|first|] == first && Plain(pieces)[|first|..] == later
  {
  }

  /** A match whose opener starts after the first seam is a match in what follows that seam. */
  lemma MatchInLater(tag: Tag, pieces: Pieces, p: nat, q: nat)
    requires pieces.blocks != [] && MatchAt(tag, Plain(pieces), p, q) && |pieces.blocks[0].before| <= p
    ensures var n := |pieces.blocks[0].before|;
            MatchAt(tag, Plain(Pieces(pieces.blocks[1..], pieces.tail)), p - n, q - n)
  {
    var n := |pieces.blocks[0].before|;
    PlainFirst(pieces);
    OccursAtSuffix(tag.open, Plain(pieces), n, p);
    OccursAtSuffix(tag.close, Plain(pieces), n, q);
  }

  /** Without an opener before any block and without a match in the tail, a match's opener lies across a seam. */
  lemma {:induction false} OpenerCrosses(tag: Tag, pieces: Pieces, p: nat, q: nat) returns (n: nat)
    requires Canonical(tag, pieces) && MatchAt(tag, Plain(pieces), p, q)
    ensures n < |pieces.blocks| && Crosses(tag.open, pieces, n, p)
    decreases |pieces.blocks|
  {
    if pieces.blocks == [] {
      assert false;
    } else {
      var first, later := pieces.blocks[0].before, Pieces(pieces.blocks[1..], pieces.tail);
      PlainFirst(pieces);
      if |first| <= p {
        MatchInLater(tag, pieces, p, q);
        assert forall b :: b in later.blocks ==> b in pieces.blocks;
        n := OpenerCrosses(tag, later, p - |first|, q - |first|);
        n := n + 1;
      } else {
        n := 0;
        OccursAtPrefix(tag.open, Plain(pieces), |first|, p);
        assert pieces.blocks[0] in pieces.blocks;
      }
    }
  }

  /**
   The text without its blocks holds a new block if and only if some opener has come together across a seam, with
   a closer after it.
   */
  lemma RescanMatchesIffSeam(tag: Tag, text: string)
    requires WellFormedTag(tag)
    ensures Matches(tag, Plain(Scan(tag, text))) <==> SeamMatches(tag, Scan(tag, text))
  {
    var pieces := Scan(tag, text);
    ScanIsCanonical(tag, text);
    if p: nat, q: nat :| MatchAt(tag, Plain(pieces), p, q) {
      var n := OpenerCrosses(tag, pieces, p, q);
    }
  }

  /** It happens: removing the blocks of one scan can bring a new block together. */
  lemma RescanMayMatchAgain() returns (text: string)
    ensures Matches(THINK, Plain(Scan(THINK, text)))
  {
    var block, tail := Block("<th", ""), "ink>x</think>";
    text := block.before + (THINK.open + (block.body + (THINK.close + tail)));
    NoOpener(block.before);
    NoOpener(tail);
    ScanOfBlock(THINK, block, tail);
    ScanWithoutMatch(THINK, tail);
    var pieces := Pieces([block], tail);
    assert Scan(THINK, text) == pieces;
    assert Pieces(pieces.blocks[1..], tail) == Pieces([], tail);
    assert Plain(pieces) == block.before + tail;
    RemainsMatch();
  }

  lemma RemainsMatch()
    ensures Matches(THINK, "<th" + "ink>x</think>")
  {
    var plain := "<th" + "ink>x</think>";
    OccursAfter(THINK.open, "", "x</think>");
    assert "" + (THINK.open + "x</think>") == plain;
    OccursAfter(THINK.close, "<think>x", "");
    assert "<think>x" + (THINK.close + "") == plain;
    assert MatchAt(THINK, plain, 0, 8);
  }

  lemma NoOpener(text: string)
    requires forall i :: 0 <= i < |text| - 3 && text[i] == '<' ==> text[i + 1] != 't'
    ensures !Occurs(THINK.open, text)
  {
    forall i: nat ensures !OccursAt(THINK.open, text, i) {
      if i + 7 <= |text| {
        assert text[i..i + 7][0] == text[i] && text[i..i + 7][1] == text[i + 1];
      }
    }
  }
}
