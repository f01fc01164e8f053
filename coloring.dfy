/** The caption display of `MyFrame._display`: each entry becomes a run of
    text coloured by its delivery status, and neighbouring runs with the same
    colours are merged into one. */
module Coloring {
  import opened TextEntries

  /** A run of text with its foreground and background colour names. */
  datatype ColoredText = ColoredText(text: string, color: string, bgcolor: string)

  /** The background that shows an entry's status. */
  function Background(s: Status): string
  {
    match s
    case Pending => "white"
    case Sent => "light gray"
    case Success => "green"
    case Failed => "red"
  }

  /** Every status has a background of its own, so the display tells them
      all apart. */
  lemma BackgroundDistinct(a: Status, b: Status)
    ensures Background(a) == Background(b) <==> a == b
  {
    if a != b {
      assert Background(a)[0] != Background(b)[0] || |Background(a)| != |Background(b)|;
    }
  }

  /** One run per entry, black on the entry's status background. */
  function Labels(entries: seq<TextEntry>): seq<ColoredText>
  {
    seq(|entries|, i requires 0 <= i < |entries| =>
      ColoredText(entries[i].text, "black", Background(entries[i].status)))
  }

  /** The text of the runs, concatenated in order. */
  function LabelText(runs: seq<ColoredText>): string
  {
    if runs == [] then [] else LabelText(runs[..|runs| - 1]) + runs[|runs| - 1].text
  }

  /** The display spells exactly the text of the entries. */
  lemma {:induction false} LabelsText(entries: seq<TextEntry>)
    ensures LabelText(Labels(entries)) == Joined(entries)
  {
    if entries != [] {
      var n := |entries| - 1;
      assert Labels(entries)[..n] == Labels(entries[..n]);
      LabelsText(entries[..n]);
      JoinedStep(entries, n);
      assert entries[..n + 1] == entries;
    }
  }

  predicate SameColors(a: ColoredText, b: ColoredText)
  {
    a.color == b.color && a.bgcolor == b.bgcolor
  }

  /** No two neighbouring runs share both colours. */
  predicate NoAdjacentRepeat(runs: seq<ColoredText>)
  {
    forall i :: 0 < i < |runs| ==> !SameColors(runs[i - 1], runs[i])
  }

  /** One step of the collapse: a run with the colours of the last run so far
      extends its text; any other run is appended. */
  function Merge(collapsed: seq<ColoredText>, item: ColoredText): seq<ColoredText>
  {
    if collapsed == [] then [item]
    else
      var last := collapsed[|collapsed| - 1];
      if !SameColors(last, item) then collapsed + [item]
      else collapsed[..|collapsed| - 1] + [last.(text := last.text + item.text)]
  }

  /** The runs after the whole collapse: never more of them than there were,
      and none unless there was one. */
  function Collapsed(runs: seq<ColoredText>): (r: seq<ColoredText>)
    ensures |r| <= |runs|
    ensures r == [] <==> runs == []
  {
    if runs == [] then [] else Merge(Collapsed(runs[..|runs| - 1]), runs[|runs| - 1])
  }

  /** The last run of a collapse has the colours of the last run given. */
  lemma CollapsedLast(runs: seq<ColoredText>)
    requires runs != []
    ensures SameColors(Collapsed(runs)[|Collapsed(runs)| - 1], runs[|runs| - 1])
  {
  }

  /** Appending a run appends its text. */
  lemma LabelTextSnoc(runs: seq<ColoredText>, item: ColoredText)
    ensures LabelText(runs + [item]) == LabelText(runs) + item.text
  {
    assert (runs + [item])[..|runs|] == runs;
  }

  /** A step of the collapse adds the run's text at the end. */
  lemma MergeText(collapsed: seq<ColoredText>, item: ColoredText)
    ensures LabelText(Merge(collapsed, item)) == LabelText(collapsed) + item.text
  {
    if collapsed != [] && SameColors(collapsed[|collapsed| - 1], item) {
      var m := |collapsed| - 1;
      var last := collapsed[m];
      LabelTextSnoc(collapsed[..m], last.(text := last.text + item.text));
      LabelTextSnoc(collapsed[..m], last);
      assert collapsed[..m] + [last] == collapsed;
    } else {
      LabelTextSnoc(collapsed, item);
    }
  }

  /** Collapsing keeps the text, in order. */
  lemma {:induction false} CollapsedText(runs: seq<ColoredText>)
    ensures LabelText(Collapsed(runs)) == LabelText(runs)
  {
    if runs != [] {
      var n := |runs| - 1;
      CollapsedText(runs[..n]);
      MergeText(Collapsed(runs[..n]), runs[n]);
    }
  }

  /** Collapsing leaves no two neighbouring runs with the same colours. */
  lemma {:induction false} CollapsedNoRepeat(runs: seq<ColoredText>)
    ensures NoAdjacentRepeat(Collapsed(runs))
  {
    if runs != [] {
      var n := |runs| - 1;
      CollapsedNoRepeat(runs[..n]);
      var c := Collapsed(runs[..n]);
      if c != [] {
        var m := |c| - 1;
        if SameColors(c[m], runs[n]) {
          var c' := c[..m] + [c[m].(text := c[m].text + runs[n].text)];
          assert forall i :: 0 <= i < |c'| ==> SameColors(c'[i], c[i]);
        }
      }
    }
  }

  /** Runs that are already apart are left as they are; so collapsing twice
      is collapsing once. */
  lemma {:induction false} CollapsedFixpoint(runs: seq<ColoredText>)
    requires NoAdjacentRepeat(runs)
    ensures Collapsed(runs) == runs
  {
    if runs != [] {
      var n := |runs| - 1;
      assert NoAdjacentRepeat(runs[..n]);
      CollapsedFixpoint(runs[..n]);
      assert runs[..n] + [runs[n]] == runs;
      if n > 0 {
        assert !SameColors(runs[n - 1], runs[n]);
      }
    }
  }

  lemma CollapsedIdempotent(runs: seq<ColoredText>)
    ensures Collapsed(Collapsed(runs)) == Collapsed(runs)
  {
    CollapsedNoRepeat(runs);
    CollapsedFixpoint(Collapsed(runs));
  }

  /** The collapse loop of `_display`. */
  method Collapse(runs: seq<ColoredText>) returns (collapsed: seq<ColoredText>)
    ensures collapsed == Collapsed(runs)
  {
    collapsed := [];
    var i := 0;
    while i < |runs|
      invariant 0 <= i <= |runs|
      invariant collapsed == Collapsed(runs[..i])
    {
      var item := runs[i];
      assert runs[..i + 1][..i] == runs[..i];
      assert Collapsed(runs[..i + 1]) == Merge(collapsed, item);
      if collapsed == [] {
        collapsed := [item];
      } else if collapsed[|collapsed| - 1].color != item.color
             || collapsed[|collapsed| - 1].bgcolor != item.bgcolor {
        collapsed := collapsed + [item];
      } else {
        var last := collapsed[|collapsed| - 1];
        collapsed := collapsed[..|collapsed| - 1] + [last.(text := last.text + item.text)];
      }
      i := i + 1;
    }
    assert runs[..i] == runs;
  }
}
