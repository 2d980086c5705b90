/** What the line parser keeps: every section's paragraphs are the runs of its own lines. */
module StandupSections {
  import opened Text
  import opened StandupMarkdown

  // ----- cutting a document at its headings -----

  /** A heading and the lines up to the next one. */
  datatype Part = Part(name: string, body: seq<Line>)

  /** The lines before the first heading. */
  function HeadLines(ks: seq<Line>): seq<Line> {
    if ks == [] || ks[0].Heading? then [] else [ks[0]] + HeadLines(ks[1..])
  }

  function Parts(ks: seq<Line>): seq<Part> {
    if ks == [] then [] else
      var n := |ks| - 1;
      var earlier := Parts(ks[..n]);
      if ks[n].Heading? then earlier + [Part(ks[n].name, [])]
      else if earlier == [] then []
      else
        var last := |earlier| - 1;
        earlier[last := earlier[last].(body := earlier[last].body + [ks[n]])]
  }

  /** The parts that are sections: all but the standup blocks. */
  function SectionParts(lower: string -> string, parts: seq<Part>): seq<Part> {
    if parts == [] then [] else
      var n := |parts| - 1;
      var earlier := SectionParts(lower, parts[..n]);
      if IsStandupName(lower, parts[n].name) then earlier else earlier + [parts[n]]
  }

  /** The standup blocks are those under a heading that is "standup-ready" in lower case. */
  lemma {:induction false} SectionPartsAre(lower: string -> string, parts: seq<Part>, part: Part)
    ensures part in SectionParts(lower, parts) <==> part in parts && lower(part.name) != "standup-ready"
  {
    if parts == [] {
    } else {
      var n := |parts| - 1;
      SectionPartsAre(lower, parts[..n], part);
      assert parts == parts[..n] + [parts[n]];
    }
  }

  // ----- paragraphs: maximal runs of text lines -----

  /** The number of text lines at the start; title lines are not there any more. */
  function LeadLength(ks: seq<Line>): (n: nat)
    ensures n <= |ks|
    ensures forall i :: 0 <= i < n ==> ks[i].Words?
    ensures n < |ks| ==> !ks[n].Words?
  {
    if ks != [] && ks[0].Words? then 1 + LeadLength(ks[1..]) else 0
  }

  function Texts(ks: seq<Line>): seq<string> {
    if ks == [] then [] else
      var n := |ks| - 1;
      var earlier := Texts(ks[..n]);
      if ks[n].Words? then earlier + [ks[n].text] else earlier
  }

  /** The maximal runs of consecutive text lines. */
  function Runs(ks: seq<Line>): seq<seq<string>>
    decreases |ks|
  {
    if ks == [] then []
    else if !ks[0].Words? then Runs(ks[1..])
    else [Texts(ks[..LeadLength(ks)])] + Runs(ks[LeadLength(ks)..])
  }

  function WithoutTitles(ks: seq<Line>): seq<Line> {
    if ks == [] then [] else
      var n := |ks| - 1;
      var earlier := WithoutTitles(ks[..n]);
      if ks[n].TitleLine? then earlier else earlier + [ks[n]]
  }

  function Paragraphs(runs: seq<seq<string>>): (ps: seq<string>)
    ensures |ps| == |runs|
    ensures forall i :: 0 <= i < |runs| ==> ps[i] == Paragraph(runs[i])
  {
    seq(|runs|, i requires 0 <= i < |runs| => Paragraph(runs[i]))
  }

  /** What a section should hold: the runs of its own lines, top-level title lines skipped. */
  function SectionOf(part: Part): Section {
    Section(part.name, Paragraphs(Runs(WithoutTitles(part.body))))
  }

  function SectionsOf(parts: seq<Part>): (sections: seq<Section>)
    ensures |sections| == |parts|
    ensures forall i :: 0 <= i < |parts| ==> sections[i] == SectionOf(parts[i])
  {
    seq(|parts|, i requires 0 <= i < |parts| => SectionOf(parts[i]))
  }

  // ----- the buffer computes runs -----

  /** Finished runs, and the run that is still open: what a buffer that flushes at separators holds. */
  datatype Buffered = Buffered(closed: seq<seq<string>>, open: seq<string>)

  function Buffer(ks: seq<Line>): Buffered {
    if ks == [] then Buffered([], []) else
      var n := |ks| - 1;
      var b := Buffer(ks[..n]);
      if ks[n].Words? then Buffered(b.closed, b.open + [ks[n].text])
      else if b.open == [] then b
      else Buffered(b.closed + [b.open], [])
  }

  function AllRuns(b: Buffered): seq<seq<string>> {
    if b.open == [] then b.closed else b.closed + [b.open]
  }

  lemma LeadLengthIs(ks: seq<Line>, n: nat)
    requires n <= |ks| && (forall i :: 0 <= i < n ==> ks[i].Words?) && (n < |ks| ==> !ks[n].Words?)
    ensures LeadLength(ks) == n
  {
  }

  /** A further separator changes no run. */
  lemma {:induction false} RunsBeforeSeparator(ks: seq<Line>, k: Line)
    requires !k.Words?
    ensures Runs(ks + [k]) == Runs(ks)
    decreases |ks|
  {
    if ks == [] {
      assert Runs([k][1..]) == [] && [] + [k] == [k];
    } else if !ks[0].Words? {
      RunsBeforeSeparator(ks[1..], k);
      assert (ks + [k])[1..] == ks[1..] + [k];
    } else {
      var n := LeadLength(ks);
      LeadLengthIs(ks + [k], n);
      assert (ks + [k])[..n] == ks[..n];
      assert (ks + [k])[n..] == ks[n..] + [k];
      RunsBeforeSeparator(ks[n..], k);
    }
  }

  predicate EndsInWords(ks: seq<Line>) {
    ks != [] && ks[|ks| - 1].Words?
  }

  /** A text goes to the last run when a text line precedes it, and else starts a new run. */
  function AddText(runs: seq<seq<string>>, afterWords: bool, text: string): seq<seq<string>> {
    if afterWords && runs != [] then
      var last := |runs| - 1;
      runs[..last] + [runs[last] + [text]]
    else runs + [[text]]
  }

  lemma RunsOfWords(ks: seq<Line>)
    requires ks != [] && LeadLength(ks) == |ks|
    ensures Runs(ks) == [Texts(ks)]
  {
    assert ks[..|ks|] == ks && ks[|ks|..] == [];
  }

  lemma RunsAfterLead(ks: seq<Line>)
    requires ks != [] && ks[0].Words?
    ensures Runs(ks) == [Texts(ks[..LeadLength(ks)])] + Runs(ks[LeadLength(ks)..])
  {
  }

  lemma AddTextAfter(run: seq<string>, runs: seq<seq<string>>, afterWords: bool, text: string)
    requires afterWords ==> runs != []
    ensures AddText([run] + runs, afterWords, text) == [run] + AddText(runs, afterWords, text)
  {
  }

  /** Text lines alone are one run, and a further text line extends it. */
  lemma RunOfWordsGrows(ks: seq<Line>, text: string)
    requires LeadLength(ks) == |ks|
    ensures Runs(ks + [Words(text)]) == AddText(Runs(ks), EndsInWords(ks), text)
    ensures EndsInWords(ks) ==> Runs(ks) != []
  {
    var all := ks + [Words(text)];
    LeadLengthIs(all, |all|);
    RunsOfWords(all);
    assert all[..|ks|] == ks;
    assert Texts(all) == Texts(ks) + [text];
    if ks == [] {
      assert [] + [text] == [text] && [] + [[text]] == [[text]];
    } else {
      RunsOfWords(ks);
      assert AddText([Texts(ks)], true, text) == [Texts(ks) + [text]];
    }
  }

  lemma {:induction false} RunsBeforeWords(ks: seq<Line>, text: string)
    ensures Runs(ks + [Words(text)]) == AddText(Runs(ks), EndsInWords(ks), text)
    ensures EndsInWords(ks) ==> Runs(ks) != []
    decreases |ks|
  {
    var k := Words(text);
    var all := ks + [k];
    var n := LeadLength(ks);
    if n == |ks| {
      RunOfWordsGrows(ks, text);
    } else if n == 0 {
      RunsBeforeWords(ks[1..], text);
      assert ks == [ks[0]] + ks[1..];
      assert all == [ks[0]] + (ks[1..] + [k]);
      assert all[1..] == ks[1..] + [k];
      assert EndsInWords(ks[1..]) == EndsInWords(ks);
    } else {
      LeadLengthIs(all, n);
      assert all[..n] == ks[..n] && all[n..] == ks[n..] + [k];
      RunsBeforeWords(ks[n..], text);
      RunsAfterLead(all);
      RunsAfterLead(ks);
      AddTextAfter(Texts(ks[..n]), Runs(ks[n..]), EndsInWords(ks), text);
    }
  }

  /** The buffer's finished runs and its open run are the runs of the lines. */
  lemma {:induction false} BufferHoldsRuns(ks: seq<Line>)
    ensures AllRuns(Buffer(ks)) == Runs(ks)
    ensures Buffer(ks).open != [] <==> EndsInWords(ks)
  {
    if ks == [] {
    } else {
      var n := |ks| - 1;
      var b := Buffer(ks[..n]);
      BufferHoldsRuns(ks[..n]);
      assert ks == ks[..n] + [ks[n]];
      if ks[n].Words? {
        RunsBeforeWords(ks[..n], ks[n].text);
        assert b.open == [] ==> [] + [ks[n].text] == [ks[n].text];
        assert (b.closed + [b.open])[..|b.closed|] == b.closed;
      } else {
        RunsBeforeSeparator(ks[..n], ks[n]);
      }
    }
  }

  // ----- the head -----

  /** The lines of the head that count: title lines and rules are passed over. */
  function HeadText(ks: seq<Line>): seq<Line> {
    if ks == [] then [] else
      var n := |ks| - 1;
      var earlier := HeadText(ks[..n]);
      if ks[n].TitleLine? || ks[n].Rule? then earlier else earlier + [ks[n]]
  }

  function DropBlanks(ks: seq<Line>): (rest: seq<Line>)
    ensures rest == [] || rest[0].Words?
  {
    if ks != [] && !ks[0].Words? then DropBlanks(ks[1..]) else ks
  }

  /** The intro part and the residue of lines that do not start with a blank. */
  function IntroOf(rest: seq<Line>): seq<string> {
    if LeadLength(rest) < |rest| then Texts(rest[..LeadLength(rest)]) else []
  }

  function ResidueOf(rest: seq<Line>): seq<string> {
    if LeadLength(rest) < |rest| then Texts(rest[LeadLength(rest)..]) else Texts(rest)
  }

  /** The first paragraph of the head becomes the intro once a blank line follows it. */
  function HeadIntro(ks: seq<Line>): seq<string> {
    IntroOf(DropBlanks(ks))
  }

  /** What the head leaves in the buffer: everything after the intro, or an unfinished first paragraph. */
  function HeadResidue(ks: seq<Line>): seq<string> {
    ResidueOf(DropBlanks(ks))
  }

  // ----- what the machine computes -----

  function Residue(ks: seq<Line>): seq<string> {
    HeadResidue(HeadText(HeadLines(ks)))
  }

  function AsWords(texts: seq<string>): (ks: seq<Line>)
    ensures |ks| == |texts|
    ensures forall i :: 0 <= i < |texts| ==> ks[i] == Words(texts[i])
  {
    seq(|texts|, i requires 0 <= i < |texts| => Words(texts[i]))
  }

  /** A part's lines as the machine sees them: what the head left behind comes before the first section's lines. */
  function Seen(residue: seq<string>, parts: seq<Part>, i: nat): seq<Line>
    requires i < |parts|
  {
    (if i == 0 then AsWords(residue) else []) + WithoutTitles(parts[i].body)
  }

  function SeenSection(residue: seq<string>, parts: seq<Part>, i: nat): Section
    requires i < |parts|
  {
    Section(parts[i].name, Paragraphs(Runs(Seen(residue, parts, i))))
  }

  // ----- the head buffer -----

  /** The intro and the buffer after some lines of the head, in the machine's terms. */
  function HeadBuffer(ks: seq<Line>): (seq<string>, seq<string>) {
    if ks == [] then ([], []) else
      var n := |ks| - 1;
      var (intro, para) := HeadBuffer(ks[..n]);
      if ks[n].Words? then (intro, para + [ks[n].text])
      else if para != [] && intro == [] then (para, [])
      else (intro, para)
  }

  lemma {:induction false} DropBlanksGrows(ks: seq<Line>, k: Line)
    ensures DropBlanks(ks + [k])
         == if DropBlanks(ks) != [] then DropBlanks(ks) + [k] else if k.Words? then [k] else []
  {
    if ks == [] {
      assert [] + [k] == [k] && [k][1..] == [];
    } else if !ks[0].Words? {
      DropBlanksGrows(ks[1..], k);
      assert (ks + [k])[1..] == ks[1..] + [k];
    }
  }

  lemma TextsGrow(ks: seq<Line>, k: Line)
    ensures Texts(ks + [k]) == if k.Words? then Texts(ks) + [k.text] else Texts(ks)
  {
    assert (ks + [k])[..|ks|] == ks;
  }

  lemma {:induction false} TextsOfLead(ks: seq<Line>)
    requires forall i :: 0 <= i < |ks| ==> ks[i].Words?
    ensures |Texts(ks)| == |ks|
  {
    if ks == [] {
    } else {
      TextsOfLead(ks[..|ks| - 1]);
    }
  }

  lemma {:induction false} HeadBufferIs(ks: seq<Line>)
    ensures HeadBuffer(ks) == (HeadIntro(ks), HeadResidue(ks))
  {
    if ks == [] {
    } else {
      var m := |ks| - 1;
      var k := ks[m];
      HeadBufferIs(ks[..m]);
      assert ks == ks[..m] + [k];
      DropBlanksGrows(ks[..m], k);
      HeadGrows(DropBlanks(ks[..m]), k);
    }
  }

  lemma LeadGrows(rest: seq<Line>, k: Line)
    requires LeadLength(rest) == |rest|
    ensures IntroOf(rest) == [] && (ResidueOf(rest) == [] <==> rest == [])
    ensures IntroOf(rest + [k]) == if k.Words? then [] else ResidueOf(rest)
    ensures ResidueOf(rest + [k]) == if k.Words? then ResidueOf(rest) + [k.text] else []
  {
    TextsOfLead(rest);
    var n, all := |rest|, rest + [k];
    LeadLengthIs(all, if k.Words? then n + 1 else n);
    assert all[..n] == rest && all[n..] == [k];
    TextsGrow(rest, k);
    TextsGrow([], k);
    assert [] + [k] == [k];
  }

  lemma AppendSplits(ks: seq<Line>, k: Line, n: nat)
    requires n <= |ks|
    ensures (ks + [k])[..n] == ks[..n] && (ks + [k])[n..] == ks[n..] + [k]
  {
  }

  lemma TailGrows(rest: seq<Line>, k: Line)
    requires 0 < LeadLength(rest) < |rest|
    ensures IntroOf(rest + [k]) == IntroOf(rest) != []
    ensures ResidueOf(rest + [k]) == if k.Words? then ResidueOf(rest) + [k.text] else ResidueOf(rest)
  {
    var n, all := LeadLength(rest), rest + [k];
    TextsOfLead(rest[..n]);
    LeadLengthIs(all, n);
    AppendSplits(rest, k, n);
    TextsGrow(rest[n..], k);
  }

  lemma HeadGrows(rest: seq<Line>, k: Line)
    requires rest == [] || rest[0].Words?
    ensures rest == [] ==> IntroOf(rest) == [] && ResidueOf(rest) == []
    ensures k.Words? || rest != [] ==>
              && IntroOf(rest + [k])
                 == (if !k.Words? && ResidueOf(rest) != [] && IntroOf(rest) == [] then ResidueOf(rest)
                     else IntroOf(rest))
              && ResidueOf(rest + [k])
                 == (if k.Words? then ResidueOf(rest) + [k.text]
                     else if ResidueOf(rest) != [] && IntroOf(rest) == [] then [] else ResidueOf(rest))
  {
    if LeadLength(rest) == |rest| {
      LeadGrows(rest, k);
    } else {
      TailGrows(rest, k);
    }
  }

  // ----- paragraphs are never blank -----

  ghost predicate ProperTexts(texts: seq<string>) {
    forall i :: 0 <= i < |texts| ==> texts[i] != "" && Trimmed(texts[i])
  }

  ghost predicate Proper(ks: seq<Line>) {
    forall i :: 0 <= i < |ks| && ks[i].Words? ==> ks[i].text != "" && Trimmed(ks[i].text)
  }

  lemma {:induction false} TextsAreProper(ks: seq<Line>)
    requires Proper(ks)
    ensures ProperTexts(Texts(ks))
  {
    if ks == [] {
    } else {
      TextsAreProper(ks[..|ks| - 1]);
    }
  }

  /** The characters of the texts, with one separator each. */
  function Ink(texts: seq<string>): nat {
    if texts == [] then 0 else Ink(texts[..|texts| - 1]) + |texts[|texts| - 1]| + 1
  }

  lemma {:induction false} JoinIsTrimmed(texts: seq<string>)
    requires ProperTexts(texts) && texts != []
    ensures |Join(" ", texts)| + 1 == Ink(texts)
    ensures Join(" ", texts) != "" && Trimmed(Join(" ", texts))
  {
    var n := |texts| - 1;
    if n > 0 {
      var earlier := Join(" ", texts[..n]);
      JoinIsTrimmed(texts[..n]);
      var joined := earlier + " " + texts[n];
      assert Join(" ", texts) == joined;
      assert joined[0] == earlier[0];
      assert joined[|joined| - 1] == texts[n][|texts[n]| - 1];
    } else {
      assert texts[..0] == [];
    }
  }

  /** A paragraph is the join of its lines, and holds every character of them. */
  lemma ParagraphInk(texts: seq<string>)
    requires ProperTexts(texts) && texts != []
    ensures Paragraph(texts) == Join(" ", texts) != ""
    ensures |Paragraph(texts)| + 1 == Ink(texts)
  {
    JoinIsTrimmed(texts);
    StripTrimmed(Join(" ", texts));
  }

  // ----- no line is lost or moved -----

  function Flatten(runs: seq<seq<string>>): seq<string> {
    if runs == [] then [] else runs[0] + Flatten(runs[1..])
  }

  lemma {:induction false} TextsConcat(a: seq<Line>, b: seq<Line>)
    ensures Texts(a + b) == Texts(a) + Texts(b)
  {
    if b == [] {
      assert a + b == a;
    } else {
      var n := |b| - 1;
      TextsConcat(a, b[..n]);
      assert a + b == (a + b[..n]) + [b[n]];
      assert b == b[..n] + [b[n]];
      TextsGrow(a + b[..n], b[n]);
      TextsGrow(b[..n], b[n]);
    }
  }

  /** Put together, the runs are all text lines, in order; and no run is empty. */
  lemma {:induction false} RunsKeepTexts(ks: seq<Line>)
    ensures Flatten(Runs(ks)) == Texts(ks)
    ensures forall i :: 0 <= i < |Runs(ks)| ==> Runs(ks)[i] != []
    decreases |ks|
  {
    if ks == [] {
    } else {
      var n := LeadLength(ks);
      if n == 0 {
        RunsKeepTexts(ks[1..]);
        TextsConcat([ks[0]], ks[1..]);
        assert ks == [ks[0]] + ks[1..];
        TextsGrow([], ks[0]);
        assert [] + [ks[0]] == [ks[0]];
      } else {
        RunsKeepTexts(ks[n..]);
        TextsOfLead(ks[..n]);
        TextsConcat(ks[..n], ks[n..]);
        assert ks == ks[..n] + ks[n..];
        RunsAfterLead(ks);
        assert Runs(ks)[1..] == Runs(ks[n..]);
      }
    }
  }

  lemma {:induction false} InkConcat(a: seq<string>, b: seq<string>)
    ensures Ink(a + b) == Ink(a) + Ink(b)
  {
    if b == [] {
      assert a + b == a;
    } else {
      var n := |b| - 1;
      InkConcat(a, b[..n]);
      assert (a + b)[..|a| + n] == a + b[..n];
    }
  }

  lemma {:induction false} ParagraphsInk(runs: seq<seq<string>>)
    requires forall i :: 0 <= i < |runs| ==> runs[i] != [] && ProperTexts(runs[i])
    ensures Ink(Paragraphs(runs)) == Ink(Flatten(runs))
  {
    if runs == [] {
    } else {
      ParagraphsInk(runs[1..]);
      ParagraphInk(runs[0]);
      InkConcat(runs[0], Flatten(runs[1..]));
      assert Paragraphs(runs) == [Paragraph(runs[0])] + Paragraphs(runs[1..]);
      InkConcat([Paragraph(runs[0])], Paragraphs(runs[1..]));
      assert [Paragraph(runs[0])][..0] == [];
    }
  }

  lemma {:induction false} FlattenProper(runs: seq<seq<string>>, i: nat)
    requires ProperTexts(Flatten(runs)) && i < |runs|
    ensures ProperTexts(runs[i])
  {
    var all := Flatten(runs);
    assert all == runs[0] + Flatten(runs[1..]);
    if i == 0 {
      assert forall j :: 0 <= j < |runs[0]| ==> runs[0][j] == all[j];
    } else {
      assert forall j :: 0 <= j < |Flatten(runs[1..])| ==> Flatten(runs[1..])[j] == all[|runs[0]| + j];
      FlattenProper(runs[1..], i - 1);
    }
  }

  /** The paragraphs of proper lines hold exactly the characters of those lines. */
  lemma RunsInk(ks: seq<Line>)
    requires Proper(ks)
    ensures Ink(Paragraphs(Runs(ks))) == Ink(Texts(ks))
  {
    RunsKeepTexts(ks);
    TextsAreProper(ks);
    forall i | 0 <= i < |Runs(ks)| ensures ProperTexts(Runs(ks)[i]) {
      FlattenProper(Runs(ks), i);
    }
    ParagraphsInk(Runs(ks));
  }
}
