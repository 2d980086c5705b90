/** The standup renderer's line parser: a state machine with one paragraph buffer. */
module StandupMarkdown {
  import opened Wrappers
  import opened Text

  datatype Section = Section(name: string, paras: seq<string>)

  datatype Document =
    Document(title: string, intro: string, sections: seq<Section>, standup: seq<(string, string)>)

  predicate StartsWith(s: string, prefix: string) {
    |prefix| <= |s| && s[..|prefix|] == prefix
  }

  // ----- lines -----

  datatype Line = TitleLine | Heading(name: string) | Rule | Blank | Words(text: string)

  /** What the parser sees in a line. */
  function Classify(line: string): (k: Line)
    ensures k.Words? ==> k.text != "" && Trimmed(k.text)
  {
    var s := RStrip(line);
    var text := Strip(s);
    if StartsWith(s, "# ") then TitleLine
    else if StartsWith(s, "## ") then Heading(Strip(s[3..]))
    else if text == "---" then Rule
    else if text == "" then Blank
    else
      StripTrims(s);
      Words(text)
  }

  lemma StripTrims(s: string)
    ensures Trimmed(Strip(s))
  {
    var left, right := StripSplits(s);
  }

  /** Trailing white space is cut off; what counts then are two marks at the start, a rule, and nothing at all. */
  lemma LineIs(line: string)
    ensures var s := RStrip(line);
            && (Classify(line) == TitleLine <==> "# " <= s)
            && (Classify(line).Heading? <==> "## " <= s)
            && ("## " <= s ==> Classify(line) == Heading(Strip(s[3..])))
            && (!("# " <= s) && !("## " <= s) ==>
                  && (Strip(s) == "---" ==> Classify(line) == Rule)
                  && (Strip(s) == "" ==> Classify(line) == Blank)
                  && (Strip(s) !in {"---", ""} ==> Classify(line) == Words(Strip(s))))
  {
    var s := RStrip(line);
    assert "# " <= s ==> s[1] == ' ';
    assert "## " <= s ==> s[1] == '#';
  }

  function ClassifyAll(lines: seq<string>): (ks: seq<Line>)
    ensures |ks| == |lines|
    ensures forall i :: 0 <= i < |ks| ==> ks[i] == Classify(lines[i])
  {
    seq(|lines|, i requires 0 <= i < |lines| => Classify(lines[i]))
  }

  // ----- the standup block -----

  function FindColon(s: string, from: nat): (r: nat)
    requires from <= |s|
    ensures from <= r <= |s|
    ensures forall i :: from <= i < r ==> s[i] != ':'
    ensures r < |s| ==> s[r] == ':'
    decreases |s| - from
  {
    if from == |s| || s[from] == ':' then from else FindColon(s, from + 1)
  }

  /** The match of `\*\*([^:]+):\*\*\s*(.*)` at the start of a stripped line. */
  function LeadIn(text: string): Option<(string, string)> {
    if !StartsWith(text, "**") then None else
      var c := FindColon(text, 2);
      if c == 2 || !StartsWith(text[c..], ":**") then None
      else Some((text[2..c], LStrip(text[c + 3..])))
  }

  /** The lead-in `**key:**` with a key that is not empty and has no colon, and the value after white space. */
  ghost predicate IsLeadIn(text: string, key: string, space: string, value: string) {
    && text == "**" + (key + (":**" + (space + value)))
    && key != "" && (forall i :: 0 <= i < |key| ==> key[i] != ':')
    && AllSpace(space) && (value == "" || !IsSpace(value[0]))
  }

  lemma CutAt(text: string, c: nat)
    requires 2 <= c && c + 3 <= |text|
    ensures text == text[..2] + (text[2..c] + (text[c..][..3] + text[c + 3..]))
  {
    assert text == text[..2] + text[2..c] + text[c..][..3] + text[c + 3..];
  }

  /** A match splits the line into exactly those parts. */
  lemma LeadInSplits(text: string) returns (space: string)
    requires LeadIn(text).Some?
    ensures IsLeadIn(text, LeadIn(text).value.0, space, LeadIn(text).value.1)
  {
    var c := FindColon(text, 2);
    space := LStripSplits(text[c + 3..]);
    CutAt(text, c);
  }

  lemma ColonFound(text: string, from: nat, c: nat)
    requires from <= c < |text| && text[c] == ':' && forall i :: from <= i < c ==> text[i] != ':'
    ensures FindColon(text, from) == c
  {
  }

  lemma {:induction false} LStripDrops(space: string, value: string)
    requires AllSpace(space) && (value == "" || !IsSpace(value[0]))
    ensures LStrip(space + value) == value
  {
    if space == "" {
      assert space + value == value;
    } else {
      LStripDrops(space[1..], value);
      assert (space + value)[1..] == space[1..] + value;
    }
  }

  /** Where the parts of a lead-in lie in the line. */
  lemma LeadInParts(text: string, key: string, space: string, value: string)
    requires IsLeadIn(text, key, space, value)
    ensures var c := 2 + |key|;
            && c + 3 <= |text| && text[..2] == "**" && text[2..c] == key
            && text[c..][..3] == ":**" && text[c + 3..] == space + value
  {
    var c := 2 + |key|;
    assert text[2..] == key + (":**" + (space + value));
    assert text[c..] == ":**" + (space + value);
    assert text[c + 3..] == text[c..][3..];
  }

  /** Every line of that form matches, with that key and value. */
  lemma LeadInMatches(text: string, key: string, space: string, value: string)
    requires IsLeadIn(text, key, space, value)
    ensures LeadIn(text) == Some((key, value))
  {
    var c := 2 + |key|;
    LeadInParts(text, key, space, value);
    assert text[c] == text[c..][..3][0];
    assert forall i :: 2 <= i < c ==> text[i] == text[2..c][i - 2];
    ColonFound(text, 2, c);
    LStripDrops(space, value);
  }

  function AddEntry(entries: seq<(string, string)>, text: string): seq<(string, string)> {
    match LeadIn(text)
    case Some(entry) => entries + [entry]
    case None =>
      if entries == [] then entries else
        var last := |entries| - 1;
        entries[last := (entries[last].0, Strip(entries[last].1 + " " + text))]
  }

  // ----- the machine -----

  datatype Mode = Head | InStandup | InSection

  /** `open` tells that there is a current section; it is then the last one. */
  datatype State = State(
    mode: Mode,
    open: bool,
    para: seq<string>,
    intro: string,
    sections: seq<Section>,
    standup: seq<(string, string)>
  )

  const INITIAL := State(Head, false, [], "", [], [])

  function Paragraph(para: seq<string>): string {
    Strip(Join(" ", para))
  }

  function FlushSection(st: State): State {
    if !st.open || st.para == [] || st.sections == [] then st else
      var last := |st.sections| - 1;
      var cur := st.sections[last];
      st.(sections := st.sections[last := cur.(paras := cur.paras + [Paragraph(st.para)])], para := [])
  }

  predicate IsStandupName(lower: string -> string, name: string) {
    lower(name) == "standup-ready"
  }

  function Apply(lower: string -> string, st: State, k: Line): State {
    match k
    case TitleLine => st
    case Heading(name) =>
      var flushed := FlushSection(st);
      if IsStandupName(lower, name) then flushed.(open := false, mode := InStandup)
      else flushed.(sections := flushed.sections + [Section(name, [])], open := true, mode := InSection)
    case Rule => FlushSection(st)
    case Blank =>
      if st.mode.Head? then
        if st.para != [] && st.intro == "" then st.(intro := Paragraph(st.para), para := []) else st
      else if st.mode.InSection? then FlushSection(st)
      else st
    case Words(text) =>
      match st.mode
      case Head => st.(para := st.para + [text])
      case InStandup => st.(standup := AddEntry(st.standup, text))
      case InSection => if st.open then st.(para := st.para + [text]) else st
  }

  function Run(lower: string -> string, ks: seq<Line>): State {
    if ks == [] then INITIAL else Apply(lower, Run(lower, ks[..|ks| - 1]), ks[|ks| - 1])
  }

  function Finish(st: State): State {
    var flushed := FlushSection(st);
    if flushed.para != [] && flushed.intro == "" then flushed.(intro := Paragraph(flushed.para)) else flushed
  }

  function TitleOf(lines: seq<string>): string {
    if lines == [] then "Standup"
    else if StartsWith(lines[0], "# ") then Strip(lines[0][2..])
    else TitleOf(lines[1..])
  }

  /** The title is the text of the first line that starts with "# ". */
  lemma {:induction false} TitleIsFirst(lines: seq<string>, i: nat)
    requires i <= |lines| && forall j :: 0 <= j < i ==> !StartsWith(lines[j], "# ")
    ensures i == |lines| ==> TitleOf(lines) == "Standup"
    ensures i < |lines| && StartsWith(lines[i], "# ") ==> TitleOf(lines) == Strip(lines[i][2..])
  {
    if i == 0 {
    } else {
      TitleIsFirst(lines[1..], i - 1);
    }
  }

  function DocumentOf(lower: string -> string, lines: seq<string>): Document {
    var st := Finish(Run(lower, ClassifyAll(lines)));
    Document(TitleOf(lines), st.intro, st.sections, st.standup)
  }

  // ----- the loops of the program -----

  method FindTitle(lines: seq<string>) returns (title: string)
    ensures title == TitleOf(lines)
  {
    title := "Standup";
    for i := 0 to |lines|
      invariant TitleOf(lines) == TitleOf(lines[i..]) && title == "Standup"
    {
      assert lines[i..][1..] == lines[i + 1..];
      if StartsWith(lines[i], "# ") {
        title := Strip(lines[i][2..]);
        return;
      }
    }
  }

  method Flush(st: State) returns (st': State)
    ensures st' == FlushSection(st)
  {
    st' := st;
    if st.open && st.sections != [] {
      if st.para != [] {
        var last := |st.sections| - 1;
        var cur := st.sections[last];
        var sections := st.sections[last := cur.(paras := cur.paras + [Paragraph(st.para)])];
        st' := st.(sections := sections, para := []);
      }
    }
  }

  /** The body of the line loop. */
  method OnLine(lower: string -> string, line: string, st: State) returns (st': State)
    ensures st' == Apply(lower, st, Classify(line))
  {
    var s := RStrip(line);
    if StartsWith(s, "# ") {
      return st;
    }
    if StartsWith(s, "## ") {
      var name := Strip(s[3..]);
      st' := Flush(st);
      if lower(name) == "standup-ready" {
        return st'.(open := false, mode := InStandup);
      }
      return st'.(sections := st'.sections + [Section(name, [])], open := true, mode := InSection);
    }
    if Strip(s) == "---" {
      st' := Flush(st);
      return;
    }
    st' := st;
    match st.mode
    case Head =>
      if Strip(s) != "" {
        st' := st.(para := st.para + [Strip(s)]);
      } else if st.para != [] && st.intro == "" {
        st' := st.(intro := Paragraph(st.para), para := []);
      }
    case InStandup =>
      if Strip(s) != "" {
        st' := st.(standup := AddEntry(st.standup, Strip(s)));
      }
    case InSection =>
      if Strip(s) == "" {
        st' := Flush(st);
      } else if st.open {
        st' := st.(para := st.para + [Strip(s)]);
      }
  }

  method Parse(lower: string -> string, lines: seq<string>) returns (doc: Document)
    ensures doc == DocumentOf(lower, lines)
  {
    var title := FindTitle(lines);
    var st := INITIAL;
    ghost var ks := ClassifyAll(lines);
    for i := 0 to |lines|
      invariant st == Run(lower, ks[..i])
    {
      assert ks[..i + 1][..i] == ks[..i];
      st := OnLine(lower, lines[i], st);
    }
    assert ks[..|lines|] == ks;
    st := Flush(st);
    if st.para != [] && st.intro == "" {
      st := st.(intro := Paragraph(st.para));
    }
    doc := Document(title, st.intro, st.sections, st.standup);
  }
}
