/** How the advice text is displayed (App.tsx): one block per line, blank
    lines as breaks, and inside a line the pieces between `**` markers
    alternate plain, bold, plain, ... */
module Markup {
  import opened Types
  import opened Text
  import opened Advisor

  /** Separator between lines of the advice text. */
  const Newline: string := "\n"

  /** The bold marker of the lightweight markup. */
  const BoldMarker: string := "**"

  datatype Segment = Plain(text: string) | Bold(text: string)

  /** A rendered line: a line break, or a paragraph of segments. */
  datatype Block = Break | Paragraph(segments: seq<Segment>)

  /** What the advice panel shows. */
  datatype Panel = Prompt | Spinner | ErrorNotice | Advice(blocks: seq<Block>) | Nothing

  /** The texts of the segments, in order. */
  function Texts(segs: seq<Segment>): (ts: seq<string>)
    ensures |ts| == |segs|
  {
    seq(|segs|, k requires 0 <= k < |segs| => segs[k].text)
  }

  /** Marks every odd-indexed piece bold. */
  function Emphasize(parts: seq<string>): (segs: seq<Segment>)
    ensures Texts(segs) == parts
    ensures forall k :: 0 <= k < |segs| ==> (segs[k].Bold? <==> k % 2 == 1)
  {
    seq(|parts|, k requires 0 <= k < |parts| => if k % 2 == 1 then Bold(parts[k]) else Plain(parts[k]))
  }

  /** Renders one line. A line that is empty after trimming is a break;
      any other line (untrimmed) becomes a paragraph whose segments start
      plain, alternate plain and bold, and never contain the marker. */
  function RenderLine(line: string): (b: Block)
    ensures b.Break? <==> forall k :: 0 <= k < |line| ==> IsWhitespace(line[k])
    ensures b.Paragraph? ==> Texts(b.segments) == Split(line, BoldMarker)
    ensures b.Paragraph? ==> |b.segments| > 0 && b.segments[0].Plain?
    ensures b.Paragraph? ==> forall k :: 0 <= k < |b.segments| - 1 ==>
              (b.segments[k].Bold? <==> b.segments[k + 1].Plain?)
    ensures b.Paragraph? ==> forall k :: 0 <= k < |b.segments| ==> SepFree(b.segments[k].text, BoldMarker)
  {
    TrimEmptyIffBlank(line);
    if Trim(line) == [] then Break
    else
      var parts := Split(line, BoldMarker);
      EmphasisShape(parts);
      Paragraph(Emphasize(parts))
  }

  /** Segments made from marker-free pieces: plain first, then alternating,
      and each carrying a marker-free text. */
  lemma EmphasisShape(parts: seq<string>)
    requires |parts| > 0
    requires forall k :: 0 <= k < |parts| ==> SepFree(parts[k], BoldMarker)
    ensures var segs := Emphasize(parts);
      && |segs| > 0 && segs[0].Plain?
      && (forall k :: 0 <= k < |segs| - 1 ==> (segs[k].Bold? <==> segs[k + 1].Plain?))
      && (forall k :: 0 <= k < |segs| ==> SepFree(segs[k].text, BoldMarker))
  {
    var segs := Emphasize(parts);
    forall k | 0 <= k < |segs| ensures SepFree(segs[k].text, BoldMarker) {
      assert segs[k].text == Texts(segs)[k];
    }
  }

  /** Renders the whole advice text, one block per line. */
  function RenderAdvice(advice: string): (blocks: seq<Block>)
    ensures |blocks| == |Split(advice, Newline)|
    ensures forall k :: 0 <= k < |blocks| ==> blocks[k] == RenderLine(Split(advice, Newline)[k])
  {
    var lines := Split(advice, Newline);
    seq(|lines|, k requires 0 <= k < |lines| => RenderLine(lines[k]))
  }

  /** No text is lost inside a paragraph: rejoining the segment texts with
      the marker gives back the line exactly as written. */
  lemma ParagraphRoundTrip(line: string)
    requires RenderLine(line).Paragraph?
    ensures Join(Texts(RenderLine(line).segments), BoldMarker) == line
  {
    JoinSplit(line, BoldMarker);
  }

  /** No text is lost across lines: the rendered blocks correspond one to
      one to the newline-free lines, which rejoin to the advice text. */
  lemma AdviceRoundTrip(advice: string)
    ensures Join(Split(advice, Newline), Newline) == advice
    ensures forall k :: 0 <= k < |Split(advice, Newline)| ==> '\n' !in Split(advice, Newline)[k]
  {
    JoinSplit(advice, Newline);
    var lines := Split(advice, Newline);
    forall k | 0 <= k < |lines| ensures '\n' !in lines[k] {
      forall j | 0 <= j < |lines[k]| ensures lines[k][j] != '\n' {
        assert !OccursAt(lines[k], Newline, j);
        assert lines[k][j..j + 1] == [lines[k][j]];
      }
    }
  }

  /** A non-blank line without markers is a single plain paragraph. */
  lemma UnmarkedLineIsPlain(line: string)
    requires SepFree(line, BoldMarker)
    requires exists k :: 0 <= k < |line| && !IsWhitespace(line[k])
    ensures RenderLine(line) == Paragraph([Plain(line)])
  {
  }

  /** The panel below the analyse button: a prompt while idle, a spinner
      while pending, an error notice after a failure, and the rendered
      advice after a success that carried non-empty text. */
  function AdvicePanel(a: AdviceState): (p: Panel)
    ensures p.Prompt? <==> a.phase == Idle
    ensures p.Spinner? <==> a.phase == Loading
    ensures p.ErrorNotice? <==> a.phase == Error
    ensures p.Advice? <==> a.phase == Success && a.advice.Some? && a.advice.value != []
    ensures p.Advice? ==> p.blocks == RenderAdvice(a.advice.value)
    ensures p.Nothing? ==> a.phase == Success
  {
    match a.phase
    case Idle => Prompt
    case Loading => Spinner
    case Error => ErrorNotice
    case Success =>
      if a.advice.Some? && a.advice.value != [] then Advice(RenderAdvice(a.advice.value)) else Nothing
  }

  /** In a consistent state the panel is blank only after a service
      delivered an empty text. The advice service replaces an empty reply
      with a fallback sentence, so this state is reachable only because the
      service is modelled as an unconstrained oracle. */
  lemma PanelBlankOnlyForEmptyText(a: AdviceState)
    requires Consistent(a)
    ensures AdvicePanel(a).Nothing? <==> a.phase == Success && a.advice == Some([])
  {
  }

  /** Worked example: a closing marker at the end of a line leaves an
      empty last piece, as JavaScript `split` does. */
  lemma MarkerSplitExample()
    ensures Split("a **b**", BoldMarker) == ["a ", "b", ""]
  {
    var line := "a **b**";
    assert line[0] != '*' && line[1] != '*';
    assert !OccursAt(line, BoldMarker, 0) && !OccursAt(line, BoldMarker, 1);
    assert OccursAt(line, BoldMarker, 2);
    assert line[..2] == "a " && line[4..] == "b**";
    assert !OccursAt("b**", BoldMarker, 0) && OccursAt("b**", BoldMarker, 1);
    assert "b**"[..1] == "b" && "b**"[3..] == "";
    assert Split("", BoldMarker) == [""];
    assert Split("b**", BoldMarker) == ["b", ""];
  }

  /** Worked example: text between a pair of markers is the one bold
      segment, flanked by plain ones. */
  lemma RenderBoldExample()
    ensures RenderLine("a **b**") == Paragraph([Plain("a "), Bold("b"), Plain("")])
  {
    MarkerSplitExample();
    var line := "a **b**";
    assert !IsWhitespace(line[0]);
    TrimEmptyIffBlank(line);
    assert Trim(line) != [];
    var segs := Emphasize(["a ", "b", ""]);
    assert |segs| == 3 && segs[0].Plain? && segs[1].Bold? && segs[2].Plain?;
    assert Texts(segs) == ["a ", "b", ""];
    assert segs[0].text == "a " && segs[1].text == "b" && segs[2].text == "";
    assert segs == [Plain("a "), Bold("b"), Plain("")];
  }
}
