# Page generator model

A Dafny model of the page generator script in the `python-packages` example of
polymu. The script builds an HTML page from a template file and a data file of
package records, one record per line. Each template line that contains the
marker `DATA` is replaced by data lines. Every other line is copied unchanged.
With no sample size `k`, a marker line gets every data line (`get_data`). With
a sample size, it gets the lines whose 0-based index is in a random set of `k`
distinct indices below `num_packages`, in file order (`sample_data`).

Input files are sequences of the strings that iterating them yields
(`seq<string>`). The page is the returned sequence of strings written to the
output file. The random draw of `random.sample(range(num_packages), k)` is an
argument: a set of `k` indices below `num_packages` (`Sampling.IsDraw`).
`PageGenerator.Config` holds the population size and the marker string. The
population size is the module-level constant `num_packages = 299594`. The
marker is the literal `'DATA'` inside `generate_page`.
`PageGenerator.ScriptConfig` holds the script's values.

Modules:

- `Text` (`text.dfy`): Python's `needle in haystack` for two strings.
- `Sampling` (`sampling.dfy`): `get_data` and `sample_data`, index-set
  selection and its properties.
- `Template` (`template.dfy`): marker-line expansion over a template.
- `PageGenerator` (`page_generator.dfy`): `generate_page`. It has a
  functional definition (`Page`), the line-by-line loop (`GeneratePage`) and
  the end-to-end properties. `Page` is a function, so a run without a sample
  size is deterministic: the same inputs give the same page.

Two behaviours of the script shape the model:

- An out-of-range `k` is noticed only when a marker line asks for data,
  because `sample_data` is a generator. A template with no marker line is
  copied for any `k` (`PageGenerator.UnmarkedTemplateCopied`). Otherwise the
  run stops at the first marker line. The `with` blocks close the writer, so
  the output file keeps the template lines before that marker line
  (`PageGenerator.Page`, `PageGenerator.PageResult`).
- With a sample size, every marker line calls `random.sample` again, so each
  marker line takes its own draw (`PageGenerator.DrawsFit`).

## Model

| member | source | states |
|---|---|---|
| `Text.Contains` | examples/python-packages/page-generator.py:28 | the marker test `'DATA' in line` holds exactly when the marker occurs as a contiguous substring at some position of the line |
| `Sampling.Range` | examples/python-packages/page-generator.py:16 | `range(n)` is the set of exactly the `n` indices `0 .. n-1` |
| `Sampling.GetData` | examples/python-packages/page-generator.py:8-12 | full emission hands on every data line in data order, nothing added or dropped |
| `Sampling.SampleData` | examples/python-packages/page-generator.py:15-21 | fails with the sample-size error exactly when `k` is negative or above `num_packages`; otherwise emits the lines at the drawn indices, at most `k` lines, and exactly `k` when the file has at least `num_packages` lines |
| `Sampling.Select` | examples/python-packages/page-generator.py:18-20 | the data lines whose index is in the draw, in file order: never more lines than the data; fully characterised by `Sampling.SelectIsSubsequence` and `Sampling.AscendingMembers` |
| `Sampling.SelectDrawsFromData` | examples/python-packages/page-generator.py:18-20 | every sampled line is a line of the data file; sampling adds nothing of its own |
| `Sampling.AscendingMembers` | examples/python-packages/page-generator.py:18-19 | the indices the scan emits are strictly ascending and are exactly the drawn indices that name a line |
| `Sampling.SelectIsSubsequence` | examples/python-packages/page-generator.py:18-20 | the j-th sampled line is the data line at the j-th smallest drawn index, so the output is an order-preserving subsequence of the data |
| `Sampling.SelectLength` | examples/python-packages/page-generator.py:18-20 | sampled emission yields one line per drawn index below the data length |
| `Sampling.BelowCardinality` | examples/python-packages/page-generator.py:16-20 | a draw of `k` indices below `n` keeps at most `k` indices below any file length, and all `k` when the file has at least `n` lines |
| `Sampling.SelectIgnoresOutOfRange` | examples/python-packages/page-generator.py:18-20 | drawn indices at or beyond the end of the data never produce output |
| `Sampling.SelectPrefix` | examples/python-packages/page-generator.py:16-20 | when every drawn index is below `m`, lines from position `m` on never reach the output, so a file longer than `num_packages` has a tail that is never sampled |
| `Sampling.SelectEverything` | examples/python-packages/page-generator.py:18-20 | a draw covering every line index emits the whole file unchanged |
| `Sampling.FullDrawIsRange` | examples/python-packages/page-generator.py:16 | `n` distinct indices below `n` are all of `range(n)` |
| `Sampling.FullSampleIsEverything` | examples/python-packages/page-generator.py:16-20 | with `k == num_packages` and exactly that many data lines, sampled emission equals full emission |
| `Sampling.EmptyDrawEmitsNothing` | examples/python-packages/page-generator.py:18-20 | the empty draw (`k == 0`) emits no line |
| `Template.Render` | examples/python-packages/page-generator.py:27-34 | the page holds `|template| - markers + TotalLength(blocks)` strings; its contents are fixed by `Template.LineInPlace` and `Template.RenderAppend` |
| `Template.FirstMarker` | examples/python-packages/page-generator.py:27-28 | the first marker line the scan meets contains the marker and no line before it does; the index is the template length exactly when there is no marker line |
| `Template.FirstMarkerUnique` | examples/python-packages/page-generator.py:27-28 | a marker line with no marker line before it is the first marker line |
| `Template.MarkerCountAppend` | examples/python-packages/page-generator.py:27-28 | the marker lines of two template parts add up |
| `Template.RenderAppend` | examples/python-packages/page-generator.py:27-34 | expansion works line by line: a concatenated template expands to the expansion of its first part followed by that of its second part, which takes the remaining blocks |
| `Template.LineInPlace` | examples/python-packages/page-generator.py:27-34 | each template line keeps its position: the output is the prefix's expansion, then the line itself if unmarked or its block if marked (the marker line is not written), then the suffix's expansion |
| `Template.RenderExtend` | examples/python-packages/page-generator.py:27-34 | scanning one more template line appends exactly that line's piece to the output |
| `Template.UnmarkedLinePosition` | examples/python-packages/page-generator.py:33-34 | an unmarked line appears unchanged among the written strings, at the offset given by the strings written for the lines before it |
| `Template.RenderUnmarked` | examples/python-packages/page-generator.py:27-34 | a template with no marker line expands to itself |
| `PageGenerator.Page` | examples/python-packages/page-generator.py:24-34 | the run stops exactly when sampling with an out-of-range `k` and the template has a marker line, and then it has written the template lines before the first marker line, none of which contains the marker; otherwise it writes `unmarked + markers * len(data)` strings without `k`, and `unmarked + markers * k` with `k` when the data has at least `num_packages` lines |
| `PageGenerator.Blocks` | examples/python-packages/page-generator.py:29-32 | one block per marker line: the whole data without `k`, and `Select(data, draws[j])` for the j-th marker line with `k` |
| `PageGenerator.BlocksLength` | examples/python-packages/page-generator.py:29-32 | every block holds `len(data)` strings without `k`, and `k` strings with a sample size when the data has at least `num_packages` lines; so the `m` blocks together hold `m * len(data)` and `m * k` strings |
| `PageGenerator.UniformTotalLength` | examples/python-packages/page-generator.py:28-32 | `m` blocks of `len` strings each hold `m * len` strings |
| `PageGenerator.GeneratePage` | examples/python-packages/page-generator.py:24-34 | the line-by-line loop, with the producer called at each marker line and the first error stopping the scan with what it has written, yields exactly `Page` |
| `PageGenerator.UnmarkedTemplateCopied` | examples/python-packages/page-generator.py:25-34 | a template without a marker line is copied verbatim, in every mode and for every `k`, valid or not |
| `PageGenerator.MarkerLineGetsAllData` | examples/python-packages/page-generator.py:28-30 | without `k`, each marker line is replaced by the whole data file, once per marker line, and is not written itself |
| `PageGenerator.MarkerLineGetsItsDraw` | examples/python-packages/page-generator.py:28-32 | with `k`, the j-th marker line is replaced by the lines of the j-th draw; lines before and after it use the draws before and after it |
| `PageGenerator.FullSampleIsFullPage` | examples/python-packages/page-generator.py:16-20 | with `k == num_packages` and exactly that many data lines, the sampled page equals the unsampled page |
| `Template.MarkerLinesDeleted` | examples/python-packages/page-generator.py:27-34 | deleting the marker lines keeps exactly the template's unmarked lines, so no kept line contains the marker |
| `Template.EmptyBlocksDeleteMarkers` | examples/python-packages/page-generator.py:27-34 | replacing every marker line by an empty block is the same as deleting the marker lines |
| `PageGenerator.ZeroSampleDropsMarkers` | examples/python-packages/page-generator.py:16-20 | `k == 0` deletes the marker lines and adds no data |
| `PageGenerator.WorkedExample` | examples/python-packages/page-generator.py:24-34 | data `A, B, C` and template `X, DATA, Y` give `X, A, B, C, Y` without `k`, give `X, A, C, Y` with `k = 2` and draw `{0, 2}`, and stop with `k = 4` after writing `X` |

## Left out

- File I/O (opening, reading, writing and closing the three files, lines 9, 12, 17, 21 and 25-34): files are sequences of lines and the output is the returned sequence. This includes aliasing between the output path and an input file: with `generate_page(data_filename)`, the `'w'` open at line 26 truncates the data file before `get_data` reads it, and the model, whose inputs are fixed sequences, does not capture that.
- Output-file lines as opposed to written strings: the page is the sequence of strings written. If the data file does not end in a newline, its last line and the next template line share one output-file line. The counts in `PageGenerator.Page`, `PageGenerator.BlocksLength` and `Template.UnmarkedLinePosition` count written strings. They equal output-file lines only when every data line ends in a newline.
- Failures of the file operations themselves (missing files, write errors): the model has no file system, and its only error is the sample-size error.
- The randomness of `random.sample` (line 16): its distribution cannot be stated here. A draw is an argument that must be one of its possible outcomes (`k` distinct indices below `num_packages`).
- Generator laziness (lines 8-21): only the order in which the error is noticed is observable. That order is modelled: the error arises at the first marker line.
- The hard-coded file names and the commented-out example calls (lines 4-5, 37-38): configuration, not logic.
