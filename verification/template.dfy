/**
 Marker-line expansion, the loop body of `generate_page`: every template line
 that contains the marker is replaced by a block of data lines, every other
 line is copied unchanged. Each marker line gets its own block, because the
 generator asks its data producer afresh at every marker line.
 */
module Template {
  import opened Text

  /** The number of template lines that contain `marker`. */
  function MarkerCount(template: seq<string>, marker: string): (c: nat)
    ensures c <= |template|
  {
    if |template| == 0 then 0
    else (if Contains(template[0], marker) then 1 else 0) + MarkerCount(template[1..], marker)
  }

  /** The total number of lines in a sequence of blocks. */
  function TotalLength(blocks: seq<seq<string>>): nat
  {
    if |blocks| == 0 then 0 else |blocks[0]| + TotalLength(blocks[1..])
  }

  /** `m` copies of one block. */
  function Repeat(block: seq<string>, m: nat): (r: seq<seq<string>>)
    ensures |r| == m
    ensures forall j :: 0 <= j < m ==> r[j] == block
  {
    seq(m, _ => block)
  }

  /**
   The output of the template scan when the j-th marker line is replaced by
   `blocks[j]`.
   */
  function Render(template: seq<string>, marker: string, blocks: seq<seq<string>>): (out: seq<string>)
    requires |blocks| == MarkerCount(template, marker)
    ensures |out| == |template| - MarkerCount(template, marker) + TotalLength(blocks)
  {
    if |template| == 0 then []
    else if Contains(template[0], marker) then
      blocks[0] + Render(template[1..], marker, blocks[1..])
    else
      [template[0]] + Render(template[1..], marker, blocks)
  }

  /** What one template line turns into: its block if it is a marker line, itself otherwise. */
  function Piece(line: string, marker: string, blocks: seq<seq<string>>, j: nat): seq<string>
    requires Contains(line, marker) ==> j < |blocks|
  {
    if Contains(line, marker) then blocks[j] else [line]
  }

  /** The index of the first template line that contains `marker`, or the
      template's length when no line does. */
  function FirstMarker(template: seq<string>, marker: string): (first: nat)
    ensures first <= |template|
    ensures first < |template| <==> MarkerCount(template, marker) > 0
    ensures first < |template| ==> Contains(template[first], marker)
    ensures forall j :: 0 <= j < first ==> !Contains(template[j], marker)
  {
    if |template| == 0 then 0
    else if Contains(template[0], marker) then 0
    else FirstMarker(template[1..], marker) + 1
  }

  /** A marker line with no marker line before it is the first one. */
  lemma FirstMarkerUnique(template: seq<string>, marker: string, i: nat)
    requires i < |template|
    requires Contains(template[i], marker)
    requires MarkerCount(template[..i], marker) == 0
    ensures MarkerCount(template, marker) > 0
    ensures FirstMarker(template, marker) == i
  {
    MarkerCountAt(template, marker, i);
    var f := FirstMarker(template, marker);
    if f < i {
      assert template[..i][f] == template[f];
      MarkerCountAt(template[..i], marker, f);
      assert false;
    }
  }

  /** Marker lines of two template parts add up. */
  lemma {:induction false} MarkerCountAppend(t1: seq<string>, t2: seq<string>, marker: string)
    ensures MarkerCount(t1 + t2, marker) == MarkerCount(t1, marker) + MarkerCount(t2, marker)
    decreases |t1|
  {
    if |t1| > 0 {
      assert (t1 + t2)[1..] == t1[1..] + t2;
      MarkerCountAppend(t1[1..], t2, marker);
    } else {
      assert t1 + t2 == t2;
    }
  }

  /** The marker lines of a template are those before line `i`, line `i` itself, and those after it. */
  lemma MarkerCountAt(template: seq<string>, marker: string, i: nat)
    requires i < |template|
    ensures MarkerCount(template, marker)
         == MarkerCount(template[..i], marker)
          + (if Contains(template[i], marker) then 1 else 0)
          + MarkerCount(template[i + 1..], marker)
  {
    assert template == template[..i] + template[i..];
    MarkerCountAppend(template[..i], template[i..], marker);
    assert template[i..][1..] == template[i + 1..];
  }

  /**
   Expansion works line by line: the output of a concatenated template is the
   output of its first part followed by the output of its second part, the
   second part taking the blocks the first part leaves over.
   */
  lemma {:induction false} RenderAppend(t1: seq<string>, t2: seq<string>, marker: string, blocks: seq<seq<string>>)
    requires |blocks| == MarkerCount(t1 + t2, marker)
    ensures MarkerCount(t1 + t2, marker) == MarkerCount(t1, marker) + MarkerCount(t2, marker)
    ensures Render(t1 + t2, marker, blocks)
         == Render(t1, marker, blocks[..MarkerCount(t1, marker)])
          + Render(t2, marker, blocks[MarkerCount(t1, marker)..])
    decreases |t1|
  {
    MarkerCountAppend(t1, t2, marker);
    if |t1| > 0 {
      assert (t1 + t2)[1..] == t1[1..] + t2;
      assert (t1 + t2)[0] == t1[0];
      var m := MarkerCount(t1, marker);
      if Contains(t1[0], marker) {
        MarkerCountAppend(t1[1..], t2, marker);
        RenderAppend(t1[1..], t2, marker, blocks[1..]);
        assert blocks[1..][..m - 1] == blocks[..m][1..];
        assert blocks[1..][m - 1..] == blocks[m..];
      } else {
        RenderAppend(t1[1..], t2, marker, blocks);
      }
    } else {
      assert t1 + t2 == t2;
    }
  }

  /**
   Every template line stays in its place: the output is the expansion of the
   lines before line `i`, then what line `i` turns into, then the expansion of
   the lines after it. An unmarked line is copied as it is; a marker line is
   not written, its block takes its place.
   */
  lemma {:induction false} LineInPlace(template: seq<string>, marker: string, blocks: seq<seq<string>>, i: nat)
    requires |blocks| == MarkerCount(template, marker)
    requires i < |template|
    ensures MarkerCount(template, marker)
         == MarkerCount(template[..i], marker)
          + (if Contains(template[i], marker) then 1 else 0)
          + MarkerCount(template[i + 1..], marker)
    ensures var m, c := MarkerCount(template[..i], marker), if Contains(template[i], marker) then 1 else 0;
      Render(template, marker, blocks)
      == Render(template[..i], marker, blocks[..m])
       + (Piece(template[i], marker, blocks, m) + Render(template[i + 1..], marker, blocks[m + c..]))
  {
    MarkerCountAt(template, marker, i);
    var m := MarkerCount(template[..i], marker);
    var c := if Contains(template[i], marker) then 1 else 0;
    var before, after := template[..i], template[i..];
    assert Render(template, marker, blocks)
        == Render(before, marker, blocks[..m]) + Render(after, marker, blocks[m..]) by {
      assert template == before + after;
      RenderAppend(before, after, marker, blocks);
    }
    assert Render(after, marker, blocks[m..])
        == Piece(template[i], marker, blocks, m) + Render(template[i + 1..], marker, blocks[m + c..]) by {
      RenderFirst(after, marker, blocks[m..]);
      assert after[0] == template[i];
      assert after[1..] == template[i + 1..];
      assert blocks[m..][c..] == blocks[m + c..];
    }
  }

  /** Unfolding one step: the first line's piece, then the expansion of the rest. */
  lemma RenderFirst(template: seq<string>, marker: string, blocks: seq<seq<string>>)
    requires |blocks| == MarkerCount(template, marker)
    requires |template| > 0
    ensures Contains(template[0], marker) ==> |blocks| > 0
    ensures Render(template, marker, blocks)
         == Piece(template[0], marker, blocks, 0)
          + Render(template[1..], marker, blocks[(if Contains(template[0], marker) then 1 else 0)..])
  {
  }

  /**
   One more template line: the expansion of the first `i + 1` lines is the
   expansion of the first `i` followed by what line `i` turns into.
   */
  lemma RenderExtend(template: seq<string>, marker: string, blocks: seq<seq<string>>, i: nat)
    requires |blocks| == MarkerCount(template, marker)
    requires i < |template|
    ensures MarkerCount(template[..i + 1], marker)
         == MarkerCount(template[..i], marker) + (if Contains(template[i], marker) then 1 else 0)
    ensures MarkerCount(template[..i + 1], marker) <= |blocks|
    ensures Render(template[..i + 1], marker, blocks[..MarkerCount(template[..i + 1], marker)])
         == Render(template[..i], marker, blocks[..MarkerCount(template[..i], marker)])
          + Piece(template[i], marker, blocks, MarkerCount(template[..i], marker))
  {
    var before, line := template[..i], template[i];
    var m := MarkerCount(before, marker);
    var c := if Contains(line, marker) then 1 else 0;
    assert template[..i + 1] == before + [line];
    assert MarkerCount(template[..i + 1], marker) == m + c by {
      MarkerCountAppend(before, [line], marker);
    }
    assert m + c <= |blocks| by {
      assert template == template[..i + 1] + template[i + 1..];
      MarkerCountAppend(template[..i + 1], template[i + 1..], marker);
    }
    var prefix := blocks[..m + c];
    assert Render(template[..i + 1], marker, prefix)
        == Render(before, marker, prefix[..m]) + Render([line], marker, prefix[m..]) by {
      RenderAppend(before, [line], marker, prefix);
    }
    assert prefix[..m] == blocks[..m];
    assert Render([line], marker, prefix[m..]) == Piece(line, marker, blocks, m) by {
      RenderSingle(line, marker, prefix[m..]);
      if c == 1 {
        assert prefix[m..][0] == blocks[m];
      }
    }
  }

  /** A one-line template turns into that line's piece. */
  lemma RenderSingle(line: string, marker: string, blocks: seq<seq<string>>)
    requires |blocks| == MarkerCount([line], marker)
    ensures Render([line], marker, blocks) == Piece(line, marker, blocks, 0)
  {
  }

  /** An unmarked line lands at the position given by the expansion of the lines before it. */
  lemma UnmarkedLinePosition(template: seq<string>, marker: string, blocks: seq<seq<string>>, i: nat)
    requires |blocks| == MarkerCount(template, marker)
    requires i < |template|
    requires !Contains(template[i], marker)
    ensures MarkerCount(template[..i], marker) <= |blocks|
    ensures var at := |template[..i]| - MarkerCount(template[..i], marker)
                    + TotalLength(blocks[..MarkerCount(template[..i], marker)]);
            at < |Render(template, marker, blocks)| && Render(template, marker, blocks)[at] == template[i]
  {
    LineInPlace(template, marker, blocks, i);
  }

  /** A template without marker lines is copied verbatim. */
  lemma {:induction false} RenderUnmarked(template: seq<string>, marker: string)
    requires MarkerCount(template, marker) == 0
    ensures Render(template, marker, []) == template
    decreases |template|
  {
    if |template| > 0 {
      RenderUnmarked(template[1..], marker);
    }
  }

  /** The template with its marker lines deleted. */
  function MarkerLinesDeleted(template: seq<string>, marker: string): (r: seq<string>)
    ensures |r| == |template| - MarkerCount(template, marker)
    ensures forall j :: 0 <= j < |r| ==> !Contains(r[j], marker)
    ensures forall line :: line in r <==> line in template && !Contains(line, marker)
  {
    if |template| == 0 then []
    else if Contains(template[0], marker) then MarkerLinesDeleted(template[1..], marker)
    else [template[0]] + MarkerLinesDeleted(template[1..], marker)
  }

  /** Replacing every marker line by an empty block deletes the marker lines. */
  lemma {:induction false} EmptyBlocksDeleteMarkers(template: seq<string>, marker: string)
    ensures Render(template, marker, Repeat([], MarkerCount(template, marker))) == MarkerLinesDeleted(template, marker)
    decreases |template|
  {
    if |template| > 0 {
      EmptyBlocksDeleteMarkers(template[1..], marker);
      var m := MarkerCount(template, marker);
      if Contains(template[0], marker) {
        assert Repeat([], m)[1..] == Repeat([], m - 1);
      }
    }
  }
}
