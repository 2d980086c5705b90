/** What the standup block comes to: lead-ins, each with every line up to the next one. */
module StandupEntries {
  import opened Text
  import opened StandupMarkdown
  import opened StandupSections
  import opened StandupFaithful

  predicate Leads(text: string) {
    LeadIn(text).Some?
  }

  ghost predicate NoLead(texts: seq<string>) {
    forall i :: 0 <= i < |texts| ==> !Leads(texts[i])
  }

  /** A lead-in and the lines up to the next one. */
  ghost predicate IsBlock(block: seq<string>) {
    block != [] && Leads(block[0]) && NoLead(block[1..])
  }

  ghost predicate AllBlocks(blocks: seq<seq<string>>) {
    forall i :: 0 <= i < |blocks| ==> IsBlock(blocks[i])
  }

  /** The value on the lead-in's own line, when there is one, and the lines after it. */
  function ValueParts(block: seq<string>): seq<string>
    requires block != [] && Leads(block[0])
  {
    var value := LeadIn(block[0]).value.1;
    (if value == "" then [] else [value]) + block[1..]
  }

  function EntryOf(block: seq<string>): (string, string)
    requires block != [] && Leads(block[0])
  {
    (LeadIn(block[0]).value.0, Join(" ", ValueParts(block)))
  }

  ghost function BlockEntries(blocks: seq<seq<string>>): (entries: seq<(string, string)>)
    requires AllBlocks(blocks)
    ensures |entries| == |blocks|
  {
    seq(|blocks|, i requires 0 <= i < |blocks| => EntryOf(blocks[i]))
  }

  // ----- the value of a lead-in has no white space around it -----

  lemma LeadValueIsTrimmed(text: string)
    requires text != "" && Trimmed(text) && Leads(text)
    ensures Trimmed(LeadIn(text).value.1)
  {
    var value := LeadIn(text).value.1;
    var space := LeadInSplits(text);
    if value != "" {
      assert text[|text| - 1] == value[|value| - 1];
    }
  }

  lemma StripAfterBlank(text: string)
    requires text != "" && Trimmed(text)
    ensures Strip(" " + text) == text
  {
    assert (" " + text)[1..] == text;
    assert LStrip(" " + text) == LStrip(text) == text;
  }

  /** A further line is joined with one blank. */
  lemma JoinMore(parts: seq<string>, text: string)
    requires ProperTexts(parts) && text != "" && Trimmed(text)
    ensures Strip(Join(" ", parts) + " " + text) == Join(" ", parts + [text])
  {
    if parts == [] {
      assert "" + " " + text == " " + text && [] + [text] == [text];
      StripAfterBlank(text);
    } else {
      assert ProperTexts(parts + [text]);
      JoinIsTrimmed(parts + [text]);
      assert (parts + [text])[..|parts|] == parts;
      StripTrimmed(Join(" ", parts + [text]));
    }
  }

  // ----- blocks grow -----

  lemma {:induction false} FlattenMore(blocks: seq<seq<string>>, block: seq<string>)
    ensures Flatten(blocks + [block]) == Flatten(blocks) + block
  {
    if blocks == [] {
      assert Flatten([block]) == block + Flatten([block][1..]);
    } else {
      FlattenMore(blocks[1..], block);
      assert (blocks + [block])[1..] == blocks[1..] + [block];
    }
  }

  lemma FlattenLast(blocks: seq<seq<string>>, text: string)
    requires blocks != []
    ensures var last := |blocks| - 1;
            Flatten(blocks[last := blocks[last] + [text]]) == Flatten(blocks) + [text]
  {
    var last := |blocks| - 1;
    FlattenMore(blocks[..last], blocks[last]);
    FlattenMore(blocks[..last], blocks[last] + [text]);
    assert blocks == blocks[..last] + [blocks[last]];
    assert blocks[last := blocks[last] + [text]] == blocks[..last] + [blocks[last] + [text]];
  }

  /** A block takes in a line that is no lead-in. */
  lemma BlockGrows(block: seq<string>, text: string)
    requires IsBlock(block) && ProperTexts(block) && text != "" && Trimmed(text) && !Leads(text)
    ensures IsBlock(block + [text])
    ensures EntryOf(block + [text]) == (EntryOf(block).0, Strip(EntryOf(block).1 + " " + text))
  {
    LeadValueIsTrimmed(block[0]);
    assert (block + [text])[1..] == block[1..] + [text];
    assert ValueParts(block + [text]) == ValueParts(block) + [text];
    JoinMore(ValueParts(block), text);
  }

  lemma BlockStarts(text: string)
    requires Leads(text)
    ensures IsBlock([text]) && EntryOf([text]) == LeadIn(text).value
  {
    var value := LeadIn(text).value.1;
    assert ValueParts([text]) == if value == "" then [] else [value];
  }

  /** The lines before the first lead-in, and the blocks. */
  ghost predicate Splits(texts: seq<string>, before: seq<string>, blocks: seq<seq<string>>) {
    texts == before + Flatten(blocks) && NoLead(before) && AllBlocks(blocks)
  }

  lemma LeadMore(texts: seq<string>, before: seq<string>, blocks: seq<seq<string>>, text: string)
    requires Splits(texts, before, blocks) && Leads(text)
    ensures Splits(texts + [text], before, blocks + [[text]])
    ensures BlockEntries(blocks + [[text]]) == BlockEntries(blocks) + [LeadIn(text).value]
  {
    BlockStarts(text);
    FlattenMore(blocks, [text]);
    assert before + (Flatten(blocks) + [text]) == before + Flatten(blocks) + [text];
  }

  lemma ProperSuffix(s: seq<string>, t: seq<string>, u: seq<string>)
    requires ProperTexts(s + (t + u))
    ensures ProperTexts(u)
  {
    assert forall i :: 0 <= i < |u| ==> u[i] == (s + (t + u))[|s| + |t| + i];
  }

  lemma LastIsProper(before: seq<string>, blocks: seq<seq<string>>)
    requires blocks != [] && ProperTexts(before + Flatten(blocks))
    ensures ProperTexts(blocks[|blocks| - 1])
  {
    var last := |blocks| - 1;
    FlattenMore(blocks[..last], blocks[last]);
    assert blocks == blocks[..last] + [blocks[last]];
    ProperSuffix(before, Flatten(blocks[..last]), blocks[last]);
  }

  lemma LastBlockGrows(blocks: seq<seq<string>>, text: string)
    requires AllBlocks(blocks) && blocks != [] && ProperTexts(blocks[|blocks| - 1])
    requires text != "" && Trimmed(text) && !Leads(text)
    ensures var last := |blocks| - 1;
            var blocks', entries := blocks[last := blocks[last] + [text]], BlockEntries(blocks);
            && AllBlocks(blocks')
            && BlockEntries(blocks') == entries[last := (entries[last].0, Strip(entries[last].1 + " " + text))]
  {
    BlockGrows(blocks[|blocks| - 1], text);
  }

  lemma TextMore(texts: seq<string>, before: seq<string>, blocks: seq<seq<string>>, text: string)
    requires Splits(texts, before, blocks) && ProperTexts(texts) && text != "" && Trimmed(text) && !Leads(text)
    requires blocks != []
    ensures var last := |blocks| - 1;
            var blocks', entries := blocks[last := blocks[last] + [text]], BlockEntries(blocks);
            && Splits(texts + [text], before, blocks')
            && BlockEntries(blocks') == entries[last := (entries[last].0, Strip(entries[last].1 + " " + text))]
  {
    var last := |blocks| - 1;
    LastIsProper(before, blocks);
    LastBlockGrows(blocks, text);
    FlattenLast(blocks, text);
    assert before + (Flatten(blocks) + [text]) == before + Flatten(blocks) + [text];
  }

  lemma StrayMore(texts: seq<string>, before: seq<string>, text: string)
    requires Splits(texts, before, []) && !Leads(text)
    ensures Splits(texts + [text], before + [text], [])
  {
    assert before + [text] + [] == before + [] + [text];
  }

  /**
   The texts before the first lead-in are dropped; every entry is a lead-in with all texts up to the next one, joined
   by blanks; and nothing else is lost.
   */
  lemma {:induction false} EntriesAreBlocks(texts: seq<string>) returns (before: seq<string>, blocks: seq<seq<string>>)
    requires ProperTexts(texts)
    ensures Splits(texts, before, blocks) && EntriesOf(texts) == BlockEntries(blocks)
  {
    if texts == [] {
      before, blocks := [], [];
    } else {
      var n := |texts| - 1;
      var text := texts[n];
      before, blocks := EntriesAreBlocks(texts[..n]);
      assert texts == texts[..n] + [text];
      if Leads(text) {
        LeadMore(texts[..n], before, blocks, text);
        blocks := blocks + [[text]];
      } else if blocks == [] {
        StrayMore(texts[..n], before, text);
        before := before + [text];
      } else {
        TextMore(texts[..n], before, blocks, text);
        blocks := blocks[|blocks| - 1 := blocks[|blocks| - 1] + [text]];
      }
    }
  }

  // ----- documents -----

  lemma {:induction false} StandupTextsAreProper(lower: string -> string, parts: seq<Part>)
    requires forall i :: 0 <= i < |parts| ==> Proper(parts[i].body)
    ensures ProperTexts(StandupTexts(lower, parts))
  {
    if parts == [] {
    } else {
      var n := |parts| - 1;
      StandupTextsAreProper(lower, parts[..n]);
      TextsAreProper(parts[n].body);
    }
  }

  /** The standup entries of every document, in terms of the text lines of its standup blocks. */
  lemma ParsedEntries(lower: string -> string, lines: seq<string>)
    returns (before: seq<string>, blocks: seq<seq<string>>)
    ensures Splits(StandupTexts(lower, Parts(ClassifyAll(lines))), before, blocks)
    ensures DocumentOf(lower, lines).standup == BlockEntries(blocks)
  {
    ParsedSections(lower, lines);
    PartsAreProper(ClassifyAll(lines));
    StandupTextsAreProper(lower, Parts(ClassifyAll(lines)));
    before, blocks := EntriesAreBlocks(StandupTexts(lower, Parts(ClassifyAll(lines))));
  }
}
