/**
 `generate_page`: copy the template line by line, replacing every line that
 contains the marker by the output of `get_data` (no sample size given) or of
 `sample_data(k)` (sample size given). Files are sequences of lines; the
 strings written to the output file are the returned sequence.
 */
module PageGenerator {
  import opened Text
  import opened Sampling
  import opened Template

  /** The population `random.sample` draws from (the module-level
      `num_packages`) and the marker substring (the literal that
      `generate_page` tests each template line for). */
  datatype Config = Config(numPackages: nat, marker: string)

  /** The values the script uses. */
  const ScriptConfig := Config(299594, "DATA")

  /** The optional argument `k`: absent (emit every data line) or a sample size. */
  datatype Mode = All | Sampled(k: int)

  /**
   What a run leaves in the output file: the whole page, or, when the data
   producer raises, its error and the strings written before it. The `with`
   blocks close the writer on the way out, so those strings stay in the file.
   */
  datatype PageResult = Written(page: seq<string>) | Stopped(error: Error, written: seq<string>)

  /**
   The random draws a run consumes: every marker line calls `sample_data`
   afresh, so a sampled run takes one draw per marker line, and each draw is a
   possible outcome of `random.sample` whenever the sample size is accepted.
   */
  predicate DrawsFit(template: seq<string>, cfg: Config, mode: Mode, draws: seq<set<nat>>)
  {
    mode.Sampled? ==>
      && |draws| == MarkerCount(template, cfg.marker)
      && (ValidSampleSize(mode.k, cfg.numPackages) ==>
            forall j :: 0 <= j < |draws| ==> IsDraw(draws[j], mode.k, cfg.numPackages))
  }

  /** The block each marker line receives, in marker order. */
  function Blocks(data: seq<string>, mode: Mode, draws: seq<set<nat>>, m: nat): (b: seq<seq<string>>)
    requires mode.Sampled? ==> |draws| == m
    ensures |b| == m
    ensures mode.All? ==> forall j :: 0 <= j < m ==> b[j] == data
    ensures mode.Sampled? ==> forall j :: 0 <= j < m ==> b[j] == Select(data, draws[j])
  {
    match mode
    case All => Repeat(data, m)
    case Sampled(_) => seq(|draws|, j requires 0 <= j < |draws| => Select(data, draws[j]))
  }

  /**
   What `generate_page` writes. A sample size that `random.sample` rejects
   is only noticed when a marker line asks for data: a template without
   marker lines is copied even then, and otherwise the run stops at the first
   marker line, having written the unmarked lines before it.
   */
  function Page(template: seq<string>, data: seq<string>, cfg: Config, mode: Mode, draws: seq<set<nat>>)
    : (r: PageResult)
    requires DrawsFit(template, cfg, mode, draws)
    ensures r.Stopped? <==>
      mode.Sampled? && MarkerCount(template, cfg.marker) > 0 && !ValidSampleSize(mode.k, cfg.numPackages)
    ensures r.Stopped? ==> r.error == SampleSizeOutOfRange(mode.k, cfg.numPackages)
    ensures r.Stopped? ==> r.written < template && Contains(template[|r.written|], cfg.marker)
    ensures r.Stopped? ==> forall j :: 0 <= j < |r.written| ==> !Contains(r.written[j], cfg.marker)
    ensures r.Written? && mode.All? ==>
      |r.page| == |template| - MarkerCount(template, cfg.marker) + MarkerCount(template, cfg.marker) * |data|
    ensures r.Written? && mode.Sampled? && cfg.numPackages <= |data| ==>
      |r.page| == |template| - MarkerCount(template, cfg.marker) + MarkerCount(template, cfg.marker) * mode.k
  {
    var m := MarkerCount(template, cfg.marker);
    if mode.Sampled? && m > 0 && !ValidSampleSize(mode.k, cfg.numPackages) then
      Stopped(SampleSizeOutOfRange(mode.k, cfg.numPackages), template[..FirstMarker(template, cfg.marker)])
    else
      var blocks := Blocks(data, mode, draws, m);
      BlocksLength(template, data, cfg, mode, draws);
      Written(Render(template, cfg.marker, blocks))
  }

  /** Every block of a run has the length the mode asks for. */
  lemma BlocksLength(template: seq<string>, data: seq<string>, cfg: Config, mode: Mode, draws: seq<set<nat>>)
    requires DrawsFit(template, cfg, mode, draws)
    requires mode.Sampled? && MarkerCount(template, cfg.marker) > 0 ==> ValidSampleSize(mode.k, cfg.numPackages)
    ensures mode.All? ==>
      TotalLength(Blocks(data, mode, draws, MarkerCount(template, cfg.marker)))
      == MarkerCount(template, cfg.marker) * |data|
    ensures mode.Sampled? && cfg.numPackages <= |data| ==>
      TotalLength(Blocks(data, mode, draws, MarkerCount(template, cfg.marker)))
      == MarkerCount(template, cfg.marker) * mode.k
    ensures mode.All? ==> forall j :: 0 <= j < MarkerCount(template, cfg.marker) ==>
      |Blocks(data, mode, draws, MarkerCount(template, cfg.marker))[j]| == |data|
    ensures mode.Sampled? && cfg.numPackages <= |data| ==>
      forall j :: 0 <= j < MarkerCount(template, cfg.marker) ==>
        |Blocks(data, mode, draws, MarkerCount(template, cfg.marker))[j]| == mode.k
  {
    var m := MarkerCount(template, cfg.marker);
    var blocks := Blocks(data, mode, draws, m);
    if mode.All? {
      UniformTotalLength(blocks, |data|);
    } else if cfg.numPackages <= |data| && m > 0 {
      forall j | 0 <= j < m
        ensures |blocks[j]| == mode.k
      {
        SelectLength(data, draws[j]);
        BelowCardinality(draws[j], mode.k, cfg.numPackages, |data|);
      }
      UniformTotalLength(blocks, mode.k);
    }
  }

  /** Blocks of one common length `len` hold `len` lines each. */
  lemma {:induction false} UniformTotalLength(blocks: seq<seq<string>>, len: nat)
    requires forall j :: 0 <= j < |blocks| ==> |blocks[j]| == len
    ensures TotalLength(blocks) == |blocks| * len
    decreases |blocks|
  {
    if |blocks| > 0 {
      UniformTotalLength(blocks[1..], len);
    }
  }

  /**
   The script's loop: scan the template, write unmarked lines as they are,
   and at each marker line write what the data producer hands over, or stop
   with its error and what has been written so far.
   */
  method GeneratePage(template: seq<string>, data: seq<string>, cfg: Config, mode: Mode, draws: seq<set<nat>>)
    returns (r: PageResult)
    requires DrawsFit(template, cfg, mode, draws)
    ensures r == Page(template, data, cfg, mode, draws)
  {
    var m := MarkerCount(template, cfg.marker);
    ghost var blocks := Blocks(data, mode, draws, m);
    var out: seq<string> := [];
    var used: nat := 0;
    var i := 0;
    while i < |template|
      invariant 0 <= i <= |template|
      invariant used == MarkerCount(template[..i], cfg.marker) <= m
      invariant out == Render(template[..i], cfg.marker, blocks[..used])
      invariant mode.Sampled? && used > 0 ==> ValidSampleSize(mode.k, cfg.numPackages)
    {
      var line := template[i];
      RenderExtend(template, cfg.marker, blocks, i);
      if Contains(line, cfg.marker) {
        var block: seq<string>;
        match mode {
          case All =>
            block := GetData(data);
          case Sampled(k) =>
            var sampled := SampleData(data, cfg.numPackages, k, draws[used]);
            if sampled.Failure? {
              RenderUnmarked(template[..i], cfg.marker);
              FirstMarkerUnique(template, cfg.marker, i);
              return Stopped(sampled.error, out);
            }
            block := sampled.value;
        }
        out := out + block;
        used := used + 1;
      } else {
        out := out + [line];
      }
      i := i + 1;
    }
    assert template[..i] == template;
    assert blocks[..used] == blocks;
    return Written(out);
  }

  /** A template without marker lines is copied verbatim, whatever the sample size. */
  lemma {:induction false} UnmarkedTemplateCopied(template: seq<string>, data: seq<string>, cfg: Config, mode: Mode, draws: seq<set<nat>>)
    requires DrawsFit(template, cfg, mode, draws)
    requires MarkerCount(template, cfg.marker) == 0
    ensures Page(template, data, cfg, mode, draws) == Written(template)
  {
    assert Blocks(data, mode, draws, 0) == [];
    RenderUnmarked(template, cfg.marker);
  }

  /**
   Without a sample size, the marker line `i` is not written and the whole
   data file takes its place; the lines around it expand as they would on
   their own.
   */
  lemma {:induction false} MarkerLineGetsAllData(template: seq<string>, data: seq<string>, cfg: Config, i: nat)
    requires i < |template|
    requires Contains(template[i], cfg.marker)
    ensures Page(template, data, cfg, All, []).Written?
    ensures Page(template, data, cfg, All, []).page
         == Render(template[..i], cfg.marker, Repeat(data, MarkerCount(template[..i], cfg.marker)))
          + (data
             + Render(template[i + 1..], cfg.marker, Repeat(data, MarkerCount(template[i + 1..], cfg.marker))))
  {
    var m := MarkerCount(template, cfg.marker);
    var blocks := Repeat(data, m);
    LineInPlace(template, cfg.marker, blocks, i);
    var before := MarkerCount(template[..i], cfg.marker);
    assert blocks[..before] == Repeat(data, before);
    assert blocks[before + 1..] == Repeat(data, MarkerCount(template[i + 1..], cfg.marker));
  }

  /**
   With a sample size, the j-th marker line is not written and the lines of
   the j-th draw take its place, in file order; the lines before it use the
   draws before it and the lines after it the draws after it.
   */
  lemma MarkerLineGetsItsDraw(template: seq<string>, data: seq<string>, cfg: Config, k: int, draws: seq<set<nat>>, i: nat)
    requires DrawsFit(template, cfg, Sampled(k), draws)
    requires ValidSampleSize(k, cfg.numPackages)
    requires i < |template|
    requires Contains(template[i], cfg.marker)
    ensures MarkerCount(template[..i], cfg.marker) < |draws|
    ensures MarkerCount(template[i + 1..], cfg.marker) == |draws| - MarkerCount(template[..i], cfg.marker) - 1
    ensures Page(template, data, cfg, Sampled(k), draws).Written?
    ensures var j := MarkerCount(template[..i], cfg.marker);
      Page(template, data, cfg, Sampled(k), draws).page
      == Render(template[..i], cfg.marker, Blocks(data, Sampled(k), draws[..j], j))
       + (Select(data, draws[j])
          + Render(template[i + 1..], cfg.marker, Blocks(data, Sampled(k), draws[j + 1..], |draws| - j - 1)))
  {
    var m := MarkerCount(template, cfg.marker);
    var blocks := Blocks(data, Sampled(k), draws, m);
    LineInPlace(template, cfg.marker, blocks, i);
    var j := MarkerCount(template[..i], cfg.marker);
    assert blocks[..j] == Blocks(data, Sampled(k), draws[..j], j);
    assert blocks[j + 1..] == Blocks(data, Sampled(k), draws[j + 1..], |draws| - j - 1);
  }

  /**
   Asking for all `n` records of an `n`-line data file gives the same page as
   asking for no sample at all.
   */
  lemma FullSampleIsFullPage(template: seq<string>, data: seq<string>, cfg: Config, draws: seq<set<nat>>)
    requires |data| == cfg.numPackages
    requires DrawsFit(template, cfg, Sampled(cfg.numPackages), draws)
    ensures Page(template, data, cfg, Sampled(cfg.numPackages), draws) == Page(template, data, cfg, All, [])
  {
    var m := MarkerCount(template, cfg.marker);
    var sampled := Blocks(data, Sampled(cfg.numPackages), draws, m);
    forall j | 0 <= j < m
      ensures sampled[j] == data
    {
      FullSampleIsEverything(data, draws[j], cfg.numPackages);
    }
    assert sampled == Repeat(data, m);
  }

  /** A sample size of zero deletes every marker line and adds nothing. */
  lemma ZeroSampleDropsMarkers(template: seq<string>, data: seq<string>, cfg: Config, draws: seq<set<nat>>)
    requires DrawsFit(template, cfg, Sampled(0), draws)
    ensures Page(template, data, cfg, Sampled(0), draws) == Written(MarkerLinesDeleted(template, cfg.marker))
  {
    var m := MarkerCount(template, cfg.marker);
    var sampled := Blocks(data, Sampled(0), draws, m);
    forall j | 0 <= j < m
      ensures sampled[j] == []
    {
      assert draws[j] == {};
      EmptyDrawEmitsNothing(data);
    }
    assert sampled == Repeat([], m);
    EmptyBlocksDeleteMarkers(template, cfg.marker);
  }

  /**
   A worked example under the script's marker: data lines "A", "B", "C" and
   the template "X", marker, "Y" give "X", "A", "B", "C", "Y" without a
   sample size, "X", "A", "C", "Y" with the draw {0, 2} of size 2, and stop
   after writing "X" when the sample size exceeds the population.
   */
  lemma WorkedExample()
    ensures Page(ExampleTemplate, ExampleData, ExampleConfig, All, [])
         == Written(["X\n", "A\n", "B\n", "C\n", "Y\n"])
    ensures Page(ExampleTemplate, ExampleData, ExampleConfig, Sampled(2), [{0, 2}])
         == Written(["X\n", "A\n", "C\n", "Y\n"])
    ensures Page(ExampleTemplate, ExampleData, ExampleConfig, Sampled(4), [{}])
         == Stopped(SampleSizeOutOfRange(4, 3), ["X\n"])
  {
    var template, data := ExampleTemplate, ExampleData;
    assert ExampleConfig.marker == "DATA";
    assert !Contains("X\n", "DATA") by { assert !OccursAt("X\n", "DATA", 0); }
    assert !Contains("Y\n", "DATA") by { assert !OccursAt("Y\n", "DATA", 0); }
    assert Contains("DATA\n", "DATA") by { assert OccursAt("DATA\n", "DATA", 0); }
    assert template[1..][1..] == ["Y\n"];
    assert MarkerCount(template, "DATA") == 1;
    assert FirstMarker(template, "DATA") == 1;
    assert template[..1] == ["X\n"];
    assert ["Y\n"][1..] == [];
    assert Render(["Y\n"], "DATA", []) == ["Y\n"];
    assert Render(template[1..], "DATA", [data]) == data + ["Y\n"];
    assert Render(template, "DATA", [data]) == ["X\n", "A\n", "B\n", "C\n", "Y\n"];
    assert Select(data, {0, 2}) == ["A\n", "C\n"] by {
      assert data[..2][..1] == ["A\n"];
      assert data[..2] == ["A\n", "B\n"];
      assert Select(data[..2][..1], {0, 2}) == ["A\n"];
    }
    assert Blocks(data, Sampled(2), [{0, 2}], 1) == [["A\n", "C\n"]];
    assert Render(template[1..], "DATA", [["A\n", "C\n"]]) == ["A\n", "C\n", "Y\n"];
    assert Render(template, "DATA", [["A\n", "C\n"]]) == ["X\n", "A\n", "C\n", "Y\n"];
  }

  const ExampleConfig := Config(3, ScriptConfig.marker)
  const ExampleTemplate: seq<string> := ["X\n", "DATA\n", "Y\n"]
  const ExampleData: seq<string> := ["A\n", "B\n", "C\n"]
}
