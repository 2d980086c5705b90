/** The line parser against its documents: which sections, intro and standup entries come out. */
module StandupFaithful {
  import opened StandupMarkdown
  import opened StandupSections

  // ----- how the parts grow by one line -----

  lemma HeadLinesGrow(ks: seq<Line>, k: Line)
    ensures HeadLines(ks + [k]) == if Parts(ks) == [] && !k.Heading? then HeadLines(ks) + [k] else HeadLines(ks)
    ensures Parts(ks) == [] ==> HeadLines(ks) == ks
  {
    HeadLinesWithoutHeading(ks);
    PartsWithoutHeading(ks);
    if exists i :: 0 <= i < |ks| && ks[i].Heading? {
      HeadLinesStop(ks, k);
    } else {
      HeadLinesWithoutHeading(ks + [k]);
      if k.Heading? {
        HeadLinesBefore(ks, k);
      }
    }
  }

  lemma {:induction false} PartsWithoutHeading(ks: seq<Line>)
    ensures Parts(ks) == [] <==> forall i :: 0 <= i < |ks| ==> !ks[i].Heading?
  {
    if ks == [] {
    } else {
      var n := |ks| - 1;
      PartsWithoutHeading(ks[..n]);
      assert forall i :: 0 <= i < n ==> ks[..n][i] == ks[i];
    }
  }

  lemma {:induction false} HeadLinesWithoutHeading(ks: seq<Line>)
    ensures (forall i :: 0 <= i < |ks| ==> !ks[i].Heading?) ==> HeadLines(ks) == ks
  {
    if ks == [] {
    } else {
      HeadLinesWithoutHeading(ks[1..]);
      assert ks == [ks[0]] + ks[1..];
    }
  }

  lemma {:induction false} HeadLinesStop(ks: seq<Line>, k: Line)
    requires exists i :: 0 <= i < |ks| && ks[i].Heading?
    ensures HeadLines(ks + [k]) == HeadLines(ks)
  {
    var i :| 0 <= i < |ks| && ks[i].Heading?;
    if i > 0 && !ks[0].Heading? {
      assert ks[1..][i - 1].Heading?;
      HeadLinesStop(ks[1..], k);
      assert (ks + [k])[1..] == ks[1..] + [k];
    }
  }

  lemma {:induction false} HeadLinesBefore(ks: seq<Line>, k: Line)
    requires k.Heading? && forall i :: 0 <= i < |ks| ==> !ks[i].Heading?
    ensures HeadLines(ks + [k]) == ks
  {
    if ks == [] {
    } else {
      HeadLinesBefore(ks[1..], k);
      assert (ks + [k])[1..] == ks[1..] + [k] && ks == [ks[0]] + ks[1..];
    }
  }

  lemma HeadTextGrows(ks: seq<Line>, k: Line)
    ensures HeadText(ks + [k]) == if k.TitleLine? || k.Rule? then HeadText(ks) else HeadText(ks) + [k]
  {
    assert (ks + [k])[..|ks|] == ks;
  }

  lemma WithoutTitlesGrows(ks: seq<Line>, k: Line)
    ensures WithoutTitles(ks + [k]) == if k.TitleLine? then WithoutTitles(ks) else WithoutTitles(ks) + [k]
  {
    assert (ks + [k])[..|ks|] == ks;
  }

  lemma PartsGrow(ks: seq<Line>, k: Line)
    ensures Parts(ks + [k])
         == if k.Heading? then Parts(ks) + [Part(k.name, [])]
            else if Parts(ks) == [] then []
            else Extended(Parts(ks), k)
  {
    assert (ks + [k])[..|ks|] == ks;
  }

  /** One more line for the last part. */
  function Extended(parts: seq<Part>, k: Line): (r: seq<Part>)
    requires parts != []
    ensures |r| == |parts|
  {
    var last := |parts| - 1;
    parts[last := parts[last].(body := parts[last].body + [k])]
  }

  predicate LastIsStandup(lower: string -> string, parts: seq<Part>) {
    parts != [] && IsStandupName(lower, parts[|parts| - 1].name)
  }

  predicate LastIsSection(lower: string -> string, parts: seq<Part>) {
    parts != [] && !IsStandupName(lower, parts[|parts| - 1].name)
  }

  lemma SectionPartsGrow(lower: string -> string, parts: seq<Part>, part: Part)
    ensures SectionParts(lower, parts + [part])
         == if IsStandupName(lower, part.name) then SectionParts(lower, parts) else SectionParts(lower, parts) + [part]
  {
    assert (parts + [part])[..|parts|] == parts;
  }

  /** A further line belongs to the last section only when the last part is one. */
  lemma SectionPartsExtend(lower: string -> string, parts: seq<Part>, k: Line)
    requires parts != []
    ensures LastIsSection(lower, parts) ==> SectionParts(lower, parts) != []
    ensures SectionParts(lower, Extended(parts, k))
         == if LastIsSection(lower, parts) then Extended(SectionParts(lower, parts), k) else SectionParts(lower, parts)
  {
    var last := |parts| - 1;
    assert Extended(parts, k)[..last] == parts[..last];
    var earlier := SectionParts(lower, parts[..last]);
    assert (earlier + [parts[last]])[..|earlier|] == earlier;
  }

  // ----- the standup entries -----

  function EntriesOf(texts: seq<string>): seq<(string, string)> {
    if texts == [] then [] else AddEntry(EntriesOf(texts[..|texts| - 1]), texts[|texts| - 1])
  }

  /** The text lines of all standup blocks, in order. */
  function StandupTexts(lower: string -> string, parts: seq<Part>): seq<string> {
    if parts == [] then [] else
      var n := |parts| - 1;
      var earlier := StandupTexts(lower, parts[..n]);
      if IsStandupName(lower, parts[n].name) then earlier + Texts(parts[n].body) else earlier
  }

  lemma StandupTextsExtend(lower: string -> string, parts: seq<Part>, k: Line)
    requires parts != []
    ensures StandupTexts(lower, Extended(parts, k))
         == if LastIsStandup(lower, parts) && k.Words? then StandupTexts(lower, parts) + [k.text]
            else StandupTexts(lower, parts)
  {
    var last := |parts| - 1;
    assert Extended(parts, k)[..last] == parts[..last];
    TextsGrow(parts[last].body, k);
    var earlier := StandupTexts(lower, parts[..last]);
    var texts := Texts(parts[last].body);
    if k.Words? {
      assert earlier + (texts + [k.text]) == earlier + texts + [k.text];
    }
  }

  lemma StandupTextsGrow(lower: string -> string, parts: seq<Part>, name: string)
    ensures StandupTexts(lower, parts + [Part(name, [])]) == StandupTexts(lower, parts)
  {
    assert (parts + [Part(name, [])])[..|parts|] == parts;
    assert StandupTexts(lower, parts) + [] == StandupTexts(lower, parts);
  }

  // ----- the machine's sections -----

  /** The sections before the last one are complete. */
  ghost predicate EarlierHold(sections: seq<Section>, residue: seq<string>, secs: seq<Part>) {
    |sections| == |secs| && forall i :: 0 <= i < |secs| - 1 ==> sections[i] == SeenSection(residue, secs, i)
  }

  /** The current section: its finished runs are paragraphs, its open run is in the buffer. */
  ghost predicate CurrentHolds(section: Section, para: seq<string>, name: string, seen: seq<Line>) {
    section == Section(name, Paragraphs(Buffer(seen).closed)) && para == Buffer(seen).open
  }

  /** The sections so far: all complete, except that the current one still has its last run in the buffer. */
  ghost predicate Holds(sections: seq<Section>, para: seq<string>, open: bool, residue: seq<string>, secs: seq<Part>) {
    && EarlierHold(sections, residue, secs)
    && (secs == [] ==> para == residue && !open)
    && (secs != [] ==>
          var last := |secs| - 1;
          if open then CurrentHolds(sections[last], para, secs[last].name, Seen(residue, secs, last))
          else sections[last] == SeenSection(residue, secs, last) && para == [])
  }

  /** Flushing completes the current section. */
  lemma FlushHolds(st: State, residue: seq<string>, secs: seq<Part>)
    requires Holds(st.sections, st.para, st.open, residue, secs)
    ensures Holds(FlushSection(st).sections, FlushSection(st).para, false, residue, secs)
    ensures FlushSection(st).(sections := [], para := []) == st.(sections := [], para := [])
  {
    if st.open {
      var seen := Seen(residue, secs, |secs| - 1);
      var b := Buffer(seen);
      BufferHoldsRuns(seen);
      assert Paragraphs(b.closed + [b.open]) == Paragraphs(b.closed) + [Paragraph(b.open)];
    }
  }

  lemma {:induction false} BufferOfWords(texts: seq<string>)
    ensures Buffer(AsWords(texts)) == Buffered([], texts)
  {
    if texts == [] {
    } else {
      var n := |texts| - 1;
      BufferOfWords(texts[..n]);
      assert AsWords(texts)[..n] == AsWords(texts[..n]);
    }
  }

  /** A new section starts with what the head left behind, if it is the first. */
  lemma HeadingHolds(sections: seq<Section>, para: seq<string>, residue: seq<string>, secs: seq<Part>, name: string)
    requires Holds(sections, para, false, residue, secs)
    ensures Holds(sections + [Section(name, [])], para, true, residue, secs + [Part(name, [])])
  {
    var secs' := secs + [Part(name, [])];
    var last := |secs|;
    BufferOfWords(residue);
    assert AsWords(residue) + [] == AsWords(residue);
    assert Buffer(Seen(residue, secs', last)) == Buffered([], if last == 0 then residue else []);
    assert Paragraphs([]) == [];
    forall i | 0 <= i < last ensures (sections + [Section(name, [])])[i] == SeenSection(residue, secs', i) {
      assert Seen(residue, secs', i) == Seen(residue, secs, i);
    }
  }

  lemma SeenExtended(residue: seq<string>, secs: seq<Part>, k: Line)
    requires secs != []
    ensures var last := |secs| - 1;
            && Seen(residue, Extended(secs, k), last)
               == (if k.TitleLine? then Seen(residue, secs, last) else Seen(residue, secs, last) + [k])
            && forall i :: 0 <= i < last ==> Seen(residue, Extended(secs, k), i) == Seen(residue, secs, i)
  {
    var last := |secs| - 1;
    WithoutTitlesGrows(secs[last].body, k);
    var lead := if last == 0 then AsWords(residue) else [];
    if !k.TitleLine? {
      assert lead + (WithoutTitles(secs[last].body) + [k]) == lead + WithoutTitles(secs[last].body) + [k];
    }
  }

  lemma BufferGrows(ks: seq<Line>, k: Line)
    ensures Buffer(ks + [k])
         == if k.Words? then Buffered(Buffer(ks).closed, Buffer(ks).open + [k.text])
            else if Buffer(ks).open == [] then Buffer(ks)
            else Buffered(Buffer(ks).closed + [Buffer(ks).open], [])
  {
    assert (ks + [k])[..|ks|] == ks;
  }

  lemma SeparatorHolds(section: Section, para: seq<string>, name: string, seen: seq<Line>, k: Line)
    requires CurrentHolds(section, para, name, seen) && !k.Words?
    ensures CurrentHolds(if para == [] then section else section.(paras := section.paras + [Paragraph(para)]), [],
                         name, seen + [k])
  {
    var b := Buffer(seen);
    BufferGrows(seen, k);
    assert Paragraphs(b.closed + [b.open]) == Paragraphs(b.closed) + [Paragraph(b.open)];
  }

  lemma EarlierUntouched(sections: seq<Section>, residue: seq<string>, secs: seq<Part>, k: Line, current: Section)
    requires secs != [] && EarlierHold(sections, residue, secs)
    ensures EarlierHold(sections[|secs| - 1 := current], residue, Extended(secs, k))
    ensures EarlierHold(sections, residue, Extended(secs, k))
  {
    SeenExtended(residue, secs, k);
  }

  /** What a line does to the current section and the buffer. */
  lemma CurrentAfter(lower: string -> string, st: State, name: string, seen: seq<Line>, k: Line)
    requires st.open && st.mode == InSection && st.sections != [] && !k.Heading?
    requires CurrentHolds(st.sections[|st.sections| - 1], st.para, name, seen)
    ensures var st', last := Apply(lower, st, k), |st.sections| - 1;
            && |st'.sections| == |st.sections|
            && st'.sections == st.sections[last := st'.sections[last]]
            && CurrentHolds(st'.sections[last], st'.para, name, if k.TitleLine? then seen else seen + [k])
  {
    if k.Words? {
      BufferGrows(seen, k);
    } else if !k.TitleLine? {
      SeparatorHolds(st.sections[|st.sections| - 1], st.para, name, seen, k);
    }
  }

  /** A line of the current section: text goes to the buffer, a separator flushes it, a title line does nothing. */
  lemma LineHolds(lower: string -> string, st: State, residue: seq<string>, secs: seq<Part>, k: Line)
    requires st.open && st.mode == InSection && secs != []
    requires Holds(st.sections, st.para, true, residue, secs) && !k.Heading?
    ensures var st' := Apply(lower, st, k);
            Holds(st'.sections, st'.para, true, residue, Extended(secs, k))
  {
    var last := |secs| - 1;
    SeenExtended(residue, secs, k);
    CurrentAfter(lower, st, secs[last].name, Seen(residue, secs, last), k);
    EarlierUntouched(st.sections, residue, secs, k, Apply(lower, st, k).sections[last]);
  }

  // ----- the machine as a whole -----

  function IntroText(run: seq<string>): string {
    if run == [] then "" else Paragraph(run)
  }

  /** What the machine's state says about the lines read so far. */
  ghost predicate Tracks(lower: string -> string, st: State, ks: seq<Line>) {
    var parts := Parts(ks);
    && st.mode == (if parts == [] then Head else if LastIsStandup(lower, parts) then InStandup else InSection)
    && st.open == LastIsSection(lower, parts)
    && st.intro == IntroText(HeadIntro(HeadText(HeadLines(ks))))
    && st.standup == EntriesOf(StandupTexts(lower, parts))
    && Holds(st.sections, st.para, st.open, Residue(ks), SectionParts(lower, parts))
  }

  lemma HeadLineTracks(lower: string -> string, st: State, ks: seq<Line>, k: Line)
    requires Tracks(lower, st, ks) && Parts(ks) == [] && !k.Heading? && Proper(ks + [k])
    ensures Tracks(lower, Apply(lower, st, k), ks + [k])
  {
    HeadLinesGrow(ks, k);
    PartsGrow(ks, k);
    HeadTextGrows(ks, k);
    var head := HeadText(ks);
    HeadBufferIs(head);
    HeadBufferIs(HeadText(ks + [k]));
    assert (head + [k])[..|head|] == head;
    IntroIsProper(ks);
  }

  lemma {:induction false} HeadBufferProper(ks: seq<Line>)
    requires Proper(ks)
    ensures ProperTexts(HeadBuffer(ks).0) && ProperTexts(HeadBuffer(ks).1)
  {
    if ks == [] {
    } else {
      HeadBufferProper(ks[..|ks| - 1]);
    }
  }

  lemma {:induction false} HeadTextProper(ks: seq<Line>)
    requires Proper(ks)
    ensures Proper(HeadText(ks))
  {
    if ks == [] {
    } else {
      HeadTextProper(ks[..|ks| - 1]);
    }
  }

  lemma {:induction false} HeadLinesProper(ks: seq<Line>)
    requires Proper(ks)
    ensures Proper(HeadLines(ks))
  {
    if ks == [] {
    } else {
      assert forall i :: 0 <= i < |ks[1..]| ==> ks[1..][i] == ks[i + 1];
      HeadLinesProper(ks[1..]);
    }
  }

  /** The intro and the buffer of the head are empty strings only when they are empty. */
  lemma IntroIsProper(ks: seq<Line>)
    requires Proper(ks)
    ensures ProperTexts(Residue(ks))
    ensures IntroText(HeadIntro(HeadText(HeadLines(ks)))) == "" <==> HeadIntro(HeadText(HeadLines(ks))) == []
    ensures IntroText(Residue(ks)) == "" <==> Residue(ks) == []
  {
    var head := HeadText(HeadLines(ks));
    HeadLinesProper(ks);
    HeadTextProper(HeadLines(ks));
    HeadBufferProper(head);
    HeadBufferIs(head);
    if HeadIntro(head) != [] {
      ParagraphInk(HeadIntro(head));
    }
    if Residue(ks) != [] {
      ParagraphInk(Residue(ks));
    }
  }

  lemma HeadingTracks(lower: string -> string, st: State, ks: seq<Line>, name: string)
    requires Tracks(lower, st, ks)
    ensures Tracks(lower, Apply(lower, st, Heading(name)), ks + [Heading(name)])
  {
    var k := Heading(name);
    var parts, secs := Parts(ks), SectionParts(lower, Parts(ks));
    HeadLinesGrow(ks, k);
    PartsGrow(ks, k);
    SectionPartsGrow(lower, parts, Part(name, []));
    StandupTextsGrow(lower, parts, name);
    FlushHolds(st, Residue(ks), secs);
    if !IsStandupName(lower, name) {
      HeadingHolds(FlushSection(st).sections, FlushSection(st).para, Residue(ks), secs, name);
    }
  }

  lemma EntriesGrow(texts: seq<string>, text: string)
    ensures EntriesOf(texts + [text]) == AddEntry(EntriesOf(texts), text)
  {
    assert (texts + [text])[..|texts|] == texts;
  }

  /** A line that is no heading, after the first heading: what it does to everything but the sections. */
  lemma BodyLineKeepsRest(lower: string -> string, st: State, ks: seq<Line>, k: Line)
    requires Tracks(lower, st, ks) && Parts(ks) != [] && !k.Heading?
    ensures Parts(ks + [k]) == Extended(Parts(ks), k) && HeadLines(ks + [k]) == HeadLines(ks)
    ensures var st' := Apply(lower, st, k);
            && st'.mode == st.mode && st'.open == st.open && st'.intro == st.intro
            && st'.standup == EntriesOf(StandupTexts(lower, Extended(Parts(ks), k)))
  {
    HeadLinesGrow(ks, k);
    PartsGrow(ks, k);
    ApplyToBody(lower, st, k);
    StandupTextsExtend(lower, Parts(ks), k);
    if k.Words? {
      EntriesGrow(StandupTexts(lower, Parts(ks)), k.text);
    }
  }

  lemma ApplyToBody(lower: string -> string, st: State, k: Line)
    requires st.mode != Head && !k.Heading?
    ensures var st' := Apply(lower, st, k);
            && st'.mode == st.mode && st'.open == st.open && st'.intro == st.intro
            && st'.standup == if st.mode == InStandup && k.Words? then AddEntry(st.standup, k.text) else st.standup
  {
  }

  lemma BodyLineTracks(lower: string -> string, st: State, ks: seq<Line>, k: Line)
    requires Tracks(lower, st, ks) && Parts(ks) != [] && !k.Heading?
    ensures Tracks(lower, Apply(lower, st, k), ks + [k])
  {
    BodyLineKeepsRest(lower, st, ks, k);
    SectionPartsExtend(lower, Parts(ks), k);
    if LastIsSection(lower, Parts(ks)) {
      LineHolds(lower, st, Residue(ks), SectionParts(lower, Parts(ks)), k);
    }
  }

  lemma {:induction false} RunTracks(lower: string -> string, ks: seq<Line>)
    requires Proper(ks)
    ensures Tracks(lower, Run(lower, ks), ks)
  {
    if ks == [] {
    } else {
      var n := |ks| - 1;
      var st := Run(lower, ks[..n]);
      RunTracks(lower, ks[..n]);
      assert ks == ks[..n] + [ks[n]];
      if ks[n].Heading? {
        HeadingTracks(lower, st, ks[..n], ks[n].name);
      } else if Parts(ks[..n]) == [] {
        HeadLineTracks(lower, st, ks[..n], ks[n]);
      } else {
        BodyLineTracks(lower, st, ks[..n], ks[n]);
      }
    }
  }

  // ----- the documents that come out -----

  function SeenSections(residue: seq<string>, secs: seq<Part>): (sections: seq<Section>)
    ensures |sections| == |secs|
    ensures forall i :: 0 <= i < |secs| ==> sections[i] == SeenSection(residue, secs, i)
  {
    seq(|secs|, i requires 0 <= i < |secs| => SeenSection(residue, secs, i))
  }

  function SectionPartsOf(lower: string -> string, lines: seq<string>): seq<Part> {
    SectionParts(lower, Parts(ClassifyAll(lines)))
  }

  /** The text that the head leaves in the buffer. */
  function ResidueIn(lines: seq<string>): seq<string> {
    Residue(ClassifyAll(lines))
  }

  lemma FinishTracks(lower: string -> string, st: State, ks: seq<Line>)
    requires Tracks(lower, st, ks)
    ensures Finish(st).sections == SeenSections(Residue(ks), SectionParts(lower, Parts(ks)))
    ensures Finish(st).standup == st.standup
  {
    var secs := SectionParts(lower, Parts(ks));
    FlushHolds(st, Residue(ks), secs);
    forall i | 0 <= i < |secs| ensures FlushSection(st).sections[i] == SeenSection(Residue(ks), secs, i) {
    }
  }

  /**
   Every document: the sections are the section parts in order, each with the runs of its own lines, and only the
   first section also gets what the head left in the buffer. The standup entries are read from the lines of the
   standup blocks alone.
   */
  lemma ParsedSections(lower: string -> string, lines: seq<string>)
    ensures DocumentOf(lower, lines).sections == SeenSections(ResidueIn(lines), SectionPartsOf(lower, lines))
    ensures DocumentOf(lower, lines).standup == EntriesOf(StandupTexts(lower, Parts(ClassifyAll(lines))))
  {
    var ks := ClassifyAll(lines);
    RunTracks(lower, ks);
    FinishTracks(lower, Run(lower, ks), ks);
  }

  /** The intro is the head's first finished paragraph; an unfinished one counts only when there is no section. */
  lemma ParsedIntro(lower: string -> string, lines: seq<string>)
    ensures var finished := HeadIntro(HeadText(HeadLines(ClassifyAll(lines))));
            DocumentOf(lower, lines).intro
            == if finished != [] then Paragraph(finished)
               else if SectionPartsOf(lower, lines) == [] then IntroText(ResidueIn(lines))
               else ""
  {
    var ks := ClassifyAll(lines);
    RunTracks(lower, ks);
    FlushHolds(Run(lower, ks), Residue(ks), SectionParts(lower, Parts(ks)));
    IntroIsProper(ks);
  }

  lemma {:induction false} PartsAreProper(ks: seq<Line>)
    requires Proper(ks)
    ensures forall i :: 0 <= i < |Parts(ks)| ==> Proper(Parts(ks)[i].body)
  {
    if ks == [] {
    } else {
      PartsAreProper(ks[..|ks| - 1]);
    }
  }

  lemma {:induction false} SectionPartsAreProper(lower: string -> string, parts: seq<Part>)
    requires forall i :: 0 <= i < |parts| ==> Proper(parts[i].body)
    ensures forall i :: 0 <= i < |SectionParts(lower, parts)| ==> Proper(SectionParts(lower, parts)[i].body)
  {
    if parts == [] {
    } else {
      SectionPartsAreProper(lower, parts[..|parts| - 1]);
    }
  }

  lemma {:induction false} WithoutTitlesProper(ks: seq<Line>)
    requires Proper(ks)
    ensures Proper(WithoutTitles(ks))
  {
    if ks == [] {
    } else {
      WithoutTitlesProper(ks[..|ks| - 1]);
    }
  }

  lemma {:induction false} TextsOfAsWords(texts: seq<string>)
    ensures Texts(AsWords(texts)) == texts
  {
    if texts == [] {
    } else {
      var n := |texts| - 1;
      TextsOfAsWords(texts[..n]);
      assert AsWords(texts)[..n] == AsWords(texts[..n]);
    }
  }

  /** Leaked text shows: the first section then holds more characters than its own lines have. */
  lemma LeakShows(residue: seq<string>, part: Part)
    requires residue != [] && ProperTexts(residue) && Proper(part.body)
    ensures SeenSection(residue, [part], 0) != SectionOf(part)
  {
    var own := WithoutTitles(part.body);
    WithoutTitlesProper(part.body);
    RunsInk(own);
    RunsInk(AsWords(residue) + own);
    TextsConcat(AsWords(residue), own);
    TextsOfAsWords(residue);
    InkConcat(residue, Texts(own));
  }

  /**
   The sections hold exactly the runs of their own lines, in order, for any number of sections before and after the
   standup block, if and only if the head leaves nothing in the buffer or there is no section for it to leak into.
   */
  lemma SectionsExactIffHeadFlushed(lower: string -> string, lines: seq<string>)
    ensures DocumentOf(lower, lines).sections == SectionsOf(SectionPartsOf(lower, lines))
       <==> ResidueIn(lines) == [] || SectionPartsOf(lower, lines) == []
  {
    var ks := ClassifyAll(lines);
    var residue, secs := ResidueIn(lines), SectionPartsOf(lower, lines);
    ParsedSections(lower, lines);
    forall i | 0 <= i < |secs| && (i > 0 || residue == []) ensures SeenSection(residue, secs, i) == SectionOf(secs[i]) {
      assert AsWords([]) == [];
      assert Seen(residue, secs, i) == WithoutTitles(secs[i].body);
    }
    if residue != [] && secs != [] {
      IntroIsProper(ks);
      PartsAreProper(ks);
      SectionPartsAreProper(lower, Parts(ks));
      LeakShows(residue, secs[0]);
      assert SeenSection(residue, secs, 0) == SeenSection(residue, [secs[0]], 0);
    }
  }

  /** The sections' own lines come back whole: put together, a section's runs are its text lines in order. */
  lemma SectionKeepsItsLines(part: Part)
    ensures Flatten(Runs(WithoutTitles(part.body))) == Texts(part.body)
  {
    RunsKeepTexts(WithoutTitles(part.body));
    TextsWithoutTitles(part.body);
  }

  lemma {:induction false} TextsWithoutTitles(ks: seq<Line>)
    ensures Texts(WithoutTitles(ks)) == Texts(ks)
  {
    if ks == [] {
    } else {
      var n := |ks| - 1;
      TextsWithoutTitles(ks[..n]);
      TextsGrow(WithoutTitles(ks[..n]), ks[n]);
    }
  }
}
