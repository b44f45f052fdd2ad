/**
 * The part of the DOCX export that decides what goes into the document: the
 * canvas Markdown is cut at horizontal rules, each section becomes either a
 * table (when it starts with a pipe) or one paragraph per line with a heading
 * marker removed. The document is represented by the list of blocks it would
 * be built from; building and saving the file is not part of the model.
 */
module ExportService {
  import opened JsStrings

  /** The lines that contain a pipe, in their original order. */
  function PipeLines(lines: seq<string>): (r: seq<string>)
    ensures |r| <= |lines|
    ensures forall i :: 0 <= i < |r| ==> '|' in r[i]
    ensures forall x :: x in r ==> x in lines
    ensures forall x :: x in lines && '|' in x ==> x in r
  {
    if lines == [] then []
    else (if '|' in lines[0] then [lines[0]] else []) + PipeLines(lines[1..])
  }

  /** Filtering distributes over concatenation, so the kept lines stay in
      order and a line without a pipe is simply dropped. */
  lemma {:induction false} PipeLinesAppend(a: seq<string>, b: seq<string>)
    ensures PipeLines(a + b) == PipeLines(a) + PipeLines(b)
  {
    if a == [] {
      assert a + b == b;
    } else {
      var head := if '|' in a[0] then [a[0]] else [];
      assert (a + b)[0] == a[0];
      assert (a + b)[1..] == a[1..] + b;
      PipeLinesAppend(a[1..], b);
      calc {
        PipeLines(a + b);
        head + PipeLines(a[1..] + b);
        head + (PipeLines(a[1..]) + PipeLines(b));
        (head + PipeLines(a[1..])) + PipeLines(b);
      }
    }
  }

  /** The cells of one table line: the pieces between the first and the last
      pipe-separated piece, each trimmed. */
  function Cells(line: string): seq<string> {
    var pieces := Slice(Split(line, '|'), 1, -1);
    seq(|pieces|, i requires 0 <= i < |pieces| => Trim(pieces[i]))
  }

  lemma {:induction false} CountPositive(s: string, c: char)
    requires c in s
    ensures Count(s, c) > 0
  {
    if s[0] != c {
      CountPositive(s[1..], c);
    }
  }

  /** A line with a pipe has one cell per piece strictly inside the outer
      pipes: a line with n pipes has n - 1 cells. */
  lemma CellsOfPipeLine(line: string)
    requires '|' in line
    ensures |Cells(line)| == Count(line, '|') - 1
    ensures forall i :: 0 <= i < |Cells(line)| ==> Cells(line)[i] == Trim(Split(line, '|')[i + 1])
  {
    CountPositive(line, '|');
    SliceDropsEnds(Split(line, '|'));
  }

  /** The table of a Markdown section: the header from the first pipe line,
      the second pipe line (the separator row) skipped, then one row per
      further pipe line; no table at all with fewer than two pipe lines. */
  function MarkdownTableToArray(markdown: string): (table: seq<seq<string>>)
    ensures var lines := PipeLines(Split(markdown, '\n'));
      && (|lines| < 2 ==> table == [])
      && (|lines| >= 2 ==> |table| == |lines| - 1 && table[0] == Cells(lines[0]))
      && (forall j :: 1 <= j < |table| ==> table[j] == Cells(lines[j + 1]))
  {
    var lines := PipeLines(Split(markdown, '\n'));
    if |lines| < 2 then []
    else
      var rows := Slice(lines, 2, |lines|);
      SliceFrom(lines, 2);
      var table := [Cells(lines[0])] + LineCells(rows);
      ConsIndex(Cells(lines[0]), LineCells(rows));
      table
  }

  /** The cells of each line, line by line. */
  function LineCells(lines: seq<string>): (cells: seq<seq<string>>)
    ensures |cells| == |lines|
    ensures forall i :: 0 <= i < |lines| ==> cells[i] == Cells(lines[i])
  {
    seq(|lines|, i requires 0 <= i < |lines| => Cells(lines[i]))
  }

  /** A table row written back as Markdown, `|a|b|`. */
  function RenderRow(cells: seq<string>): string {
    "|" + Join(cells, "|") + "|"
  }

  /** A table written as Markdown: header, separator row, rows. */
  function RenderTable(header: seq<string>, rows: seq<seq<string>>): string {
    var separator := seq(|header|, _ => "---");
    Join([RenderRow(header), RenderRow(separator)]
         + seq(|rows|, i requires 0 <= i < |rows| => RenderRow(rows[i])), "\n")
  }

  /** A cell the parser can give back unchanged: no pipe, no line break, no
      surrounding whitespace. */
  predicate PlainCell(cell: string) {
    '|' !in cell && '\n' !in cell
    && (cell == [] || (!IsWhitespace(cell[0]) && !IsWhitespace(cell[|cell| - 1])))
  }

  predicate PlainRow(cells: seq<string>) {
    |cells| > 0 && forall i :: 0 <= i < |cells| ==> PlainCell(cells[i])
  }

  lemma {:induction false} JoinAvoids(parts: seq<string>, sep: string, c: char)
    requires c !in sep
    requires forall i :: 0 <= i < |parts| ==> c !in parts[i]
    ensures c !in Join(parts, sep)
  {
    if |parts| > 1 {
      JoinAvoids(parts[1..], sep, c);
    }
  }

  /** Parsing a rendered row gives back its cells. */
  lemma RowRoundTrip(cells: seq<string>)
    requires PlainRow(cells)
    ensures Cells(RenderRow(cells)) == cells
  {
    var pieces := Split(RenderRow(cells), '|');
    RowPieces(cells);
    SliceDropsEnds(pieces);
    assert pieces[1..|pieces| - 1] == cells;
    PlainCellsTrimmed(cells);
  }

  /** A rendered row splits at its pipes into an empty piece, its cells and
      another empty piece. */
  lemma RowPieces(cells: seq<string>)
    requires |cells| > 0 && forall i :: 0 <= i < |cells| ==> '|' !in cells[i]
    ensures Split(RenderRow(cells), '|') == [""] + cells + [""]
  {
    var inner := Join(cells, "|");
    assert RenderRow(cells) == ['|'] + (inner + ['|']);
    SplitLeading(inner + ['|'], '|');
    assert inner + ['|'] + [] == inner + ['|'];
    SplitAround(inner, [], '|');
    SplitJoin(cells, '|');
  }

  /** Trimming leaves every cell of a plain row as it is. */
  lemma PlainCellsTrimmed(cells: seq<string>)
    requires PlainRow(cells)
    ensures forall i :: 0 <= i < |cells| ==> Trim(cells[i]) == cells[i]
  {
    forall i | 0 <= i < |cells| ensures Trim(cells[i]) == cells[i] {
      assert PlainCell(cells[i]);
      TrimUnchanged(cells[i]);
    }
  }

  lemma RenderRowShape(cells: seq<string>)
    requires forall i :: 0 <= i < |cells| ==> '\n' !in cells[i]
    ensures '|' in RenderRow(cells) && '\n' !in RenderRow(cells)
    ensures RenderRow(cells)[0] == '|' && RenderRow(cells)[|RenderRow(cells)| - 1] == '|'
  {
    JoinAvoids(cells, "|", '\n');
  }

  /** The lines of a rendered table. */
  function TableLines(header: seq<string>, rows: seq<seq<string>>): seq<string> {
    [RenderRow(header), RenderRow(seq(|header|, _ => "---"))]
      + seq(|rows|, i requires 0 <= i < |rows| => RenderRow(rows[i]))
  }

  lemma {:induction false} PipeLinesKeepAll(lines: seq<string>)
    requires forall i :: 0 <= i < |lines| ==> '|' in lines[i]
    ensures PipeLines(lines) == lines
  {
    if lines != [] {
      PipeLinesKeepAll(lines[1..]);
    }
  }

  lemma TableLinesShape(header: seq<string>, rows: seq<seq<string>>)
    requires PlainRow(header) && forall r :: 0 <= r < |rows| ==> PlainRow(rows[r])
    ensures var lines := TableLines(header, rows);
      forall i :: 0 <= i < |lines| ==>
        '|' in lines[i] && '\n' !in lines[i] && lines[i][0] == '|' && lines[i][|lines[i]| - 1] == '|'
  {
    var lines := TableLines(header, rows);
    forall i | 0 <= i < |lines|
      ensures '|' in lines[i] && '\n' !in lines[i] && lines[i][0] == '|' && lines[i][|lines[i]| - 1] == '|'
    {
      if i == 0 {
        RenderRowShape(header);
      } else if i == 1 {
        RenderRowShape(seq(|header|, _ => "---"));
      } else {
        RenderRowShape(rows[i - 2]);
      }
    }
  }

  /** Reading a rendered table gives back its header and its rows: the
      separator row is the only line dropped. */
  lemma TableRoundTrip(header: seq<string>, rows: seq<seq<string>>)
    requires PlainRow(header) && forall r :: 0 <= r < |rows| ==> PlainRow(rows[r])
    ensures MarkdownTableToArray(RenderTable(header, rows)) == [header] + rows
  {
    var lines := TableLines(header, rows);
    RenderedPipeLines(header, rows);
    RenderedCells(header, rows);
    var table := MarkdownTableToArray(RenderTable(header, rows));
    var expected := [header] + rows;
    assert |table| == |expected|;
    forall j | 0 <= j < |table| ensures table[j] == expected[j] {
      if j > 0 {
        assert table[j] == Cells(lines[j + 1]);
      }
    }
  }

  /** The cells of the lines of a rendered table. */
  lemma RenderedCells(header: seq<string>, rows: seq<seq<string>>)
    requires PlainRow(header) && forall r :: 0 <= r < |rows| ==> PlainRow(rows[r])
    ensures var lines := TableLines(header, rows);
      && Cells(lines[0]) == header
      && forall j :: 2 <= j < |lines| ==> Cells(lines[j]) == rows[j - 2]
  {
    var lines := TableLines(header, rows);
    RowRoundTrip(header);
    forall j | 2 <= j < |lines| ensures Cells(lines[j]) == rows[j - 2] {
      assert lines[j] == RenderRow(rows[j - 2]);
      RowRoundTrip(rows[j - 2]);
    }
  }

  /** Every line of a rendered table is a pipe line. */
  lemma RenderedPipeLines(header: seq<string>, rows: seq<seq<string>>)
    requires PlainRow(header) && forall r :: 0 <= r < |rows| ==> PlainRow(rows[r])
    ensures PipeLines(Split(RenderTable(header, rows), '\n')) == TableLines(header, rows)
  {
    var lines := TableLines(header, rows);
    assert RenderTable(header, rows) == Join(lines, "\n");
    TableLinesShape(header, rows);
    SplitJoin(lines, '\n');
    PipeLinesKeepAll(lines);
  }

  /** A row of the generated document table. */
  datatype Row = Row(cells: seq<string>, isHeader: bool)

  /** A block of the generated document: a table or a paragraph of text. */
  datatype Block = TableBlock(rows: seq<Row>) | ParagraphBlock(text: string)

  /** The document rows of a parsed table: same cells, and only the first row
      marked as a header row. */
  function TableRows(table: seq<seq<string>>): (rows: seq<Row>)
    ensures |rows| == |table|
    ensures forall i :: 0 <= i < |rows| ==> rows[i].cells == table[i]
    ensures forall i :: 0 <= i < |rows| ==> (rows[i].isHeader <==> i == 0)
  {
    seq(|table|, i requires 0 <= i < |table| => Row(table[i], i == 0))
  }

  /** Position of the first `c` in `s`, or |s| when there is none. */
  function IndexOfChar(s: string, c: char): (i: nat)
    ensures i <= |s|
    ensures i < |s| ==> s[i] == c
    ensures forall p :: 0 <= p < i ==> s[p] != c
  {
    if s == [] || s[0] == c then 0 else 1 + IndexOfChar(s[1..], c)
  }

  /** Length of the run of `#` at the start of `s`. */
  function HashRun(s: string): (n: nat)
    ensures n <= |s|
    ensures forall p :: 0 <= p < n ==> s[p] == '#'
    ensures n == |s| || s[n] != '#'
  {
    if s != [] && s[0] == '#' then 1 + HashRun(s[1..]) else 0
  }

  /** Length of the run of whitespace at the start of `s`. */
  function WhitespaceRun(s: string): (n: nat)
    ensures n <= |s|
    ensures forall p :: 0 <= p < n ==> IsWhitespace(s[p])
    ensures n == |s| || !IsWhitespace(s[n])
  {
    if s != [] && IsWhitespace(s[0]) then 1 + WhitespaceRun(s[1..]) else 0
  }

  /** `line.replace(/#+\s*\/, '')`: the first run of `#` and the whitespace
      right after it are removed; the text before it is kept. */
  function StripHeading(line: string): string {
    if line == [] then line
    else if line[0] == '#' then SkipWhitespace(SkipHashes(line))
    else [line[0]] + StripHeading(line[1..])
  }

  /** `s` without its leading run of `#`. */
  function SkipHashes(s: string): string {
    if s != [] && s[0] == '#' then SkipHashes(s[1..]) else s
  }

  /** `s` without its leading whitespace. */
  function SkipWhitespace(s: string): string {
    if s != [] && IsWhitespace(s[0]) then SkipWhitespace(s[1..]) else s
  }

  /** The match the regular expression `#+\s*` finds in `line`: it starts at
      the leftmost `#`, takes every `#` of that run (line[i..j]) and then every
      whitespace character after it (line[j..k]), as greedy quantifiers do. */
  predicate HeadingMatch(line: string, i: nat, j: nat, k: nat) {
    && i < j <= k <= |line|
    && (forall p :: 0 <= p < i ==> line[p] != '#')
    && (forall p :: i <= p < j ==> line[p] == '#')
    && (j == |line| || line[j] != '#')
    && (forall p :: j <= p < k ==> IsWhitespace(line[p]))
    && (k == |line| || !IsWhitespace(line[k]))
  }

  /** StripHeading removes exactly the regular expression's match, and leaves
      a line without `#` untouched. */
  lemma {:induction false} StripHeadingRemovesMatch(line: string, i: nat, j: nat, k: nat)
    requires HeadingMatch(line, i, j, k)
    ensures StripHeading(line) == line[..i] + line[k..]
    decreases i
  {
    if i == 0 {
      MatchAtStart(line, j, k);
      assert line[..0] + line[k..] == line[k..];
    } else {
      var tail := line[1..];
      MatchInTail(line, i, j, k);
      StripHeadingRemovesMatch(tail, i - 1, j - 1, k - 1);
      assert line[..i] == [line[0]] + tail[..i - 1];
      assert tail[k - 1..] == line[k..];
    }
  }

  /** A match at the very start of the line: the line from its end on. */
  lemma MatchAtStart(line: string, j: nat, k: nat)
    requires HeadingMatch(line, 0, j, k)
    ensures StripHeading(line) == line[k..]
  {
    SkipHashesRun(line, j);
    var rest := line[j..];
    forall p | 0 <= p < k - j ensures IsWhitespace(rest[p]) {
      assert rest[p] == line[j + p];
    }
    SkipWhitespaceRun(rest, k - j);
    assert rest[k - j..] == line[k..];
  }

  /** A match after the first character is a match in the rest of the line. */
  lemma MatchInTail(line: string, i: nat, j: nat, k: nat)
    requires HeadingMatch(line, i, j, k) && 0 < i
    ensures HeadingMatch(line[1..], i - 1, j - 1, k - 1)
  {
    var tail := line[1..];
    assert forall p :: 0 <= p < |tail| ==> tail[p] == line[p + 1];
  }

  lemma {:induction false} SkipHashesRun(s: string, n: nat)
    requires n <= |s| && (forall p :: 0 <= p < n ==> s[p] == '#') && (n == |s| || s[n] != '#')
    ensures SkipHashes(s) == s[n..]
    decreases n
  {
    if n > 0 {
      assert forall p :: 0 <= p < n - 1 ==> s[1..][p] == s[p + 1];
      SkipHashesRun(s[1..], n - 1);
      assert s[1..][n - 1..] == s[n..];
    }
  }

  lemma {:induction false} SkipWhitespaceRun(s: string, n: nat)
    requires n <= |s| && (forall p :: 0 <= p < n ==> IsWhitespace(s[p])) && (n == |s| || !IsWhitespace(s[n]))
    ensures SkipWhitespace(s) == s[n..]
    decreases n
  {
    if n > 0 {
      assert forall p :: 0 <= p < n - 1 ==> s[1..][p] == s[p + 1];
      SkipWhitespaceRun(s[1..], n - 1);
      assert s[1..][n - 1..] == s[n..];
    }
  }

  lemma StripHeadingWithoutHash(line: string)
    requires '#' !in line
    ensures StripHeading(line) == line
  {
  }

  /** Every line holding a `#` has a match. */
  lemma HeadingMatchExists(line: string)
    requires '#' in line
    ensures exists i: nat, j: nat, k: nat :: HeadingMatch(line, i, j, k)
  {
    var i := IndexOfChar(line, '#');
    var j := i + HashRun(line[i..]);
    var k := j + WhitespaceRun(line[j..]);
    forall p | i <= p < j ensures line[p] == '#' {
      assert line[i..][p - i] == line[p];
    }
    forall p | j <= p < k ensures IsWhitespace(line[p]) {
      assert line[j..][p - j] == line[p];
    }
    if j < |line| {
      assert line[i..][j - i] == line[j];
    }
    if k < |line| {
      assert line[j..][k - j] == line[k];
    }
    assert HeadingMatch(line, i, j, k);
  }

  /** The blocks one section contributes. A section whose trimmed text starts
      with a pipe is a table section: it yields one table, or nothing when it
      does not parse to a table. Any other section yields one paragraph per
      line, in order, each with its heading marker removed. */
  function SectionBlocks(section: string): seq<Block> {
    if TrimmedStartsWith(section, '|') then TableSectionBlocks(section) else TextSectionBlocks(section)
  }

  /** A table section: one table, or nothing when it does not parse. */
  function TableSectionBlocks(section: string): seq<Block> {
    var table := MarkdownTableToArray(section);
    if |table| > 0 then [TableBlock(TableRows(table))] else []
  }

  /** A text section: one paragraph per line, heading marker removed. */
  function TextSectionBlocks(section: string): (blocks: seq<Block>)
    ensures var lines := Split(section, '\n');
      |blocks| == |lines| && forall i :: 0 <= i < |lines| ==> blocks[i] == ParagraphBlock(StripHeading(lines[i]))
  {
    var lines := Split(section, '\n');
    seq(|lines|, i requires 0 <= i < |lines| => ParagraphBlock(StripHeading(lines[i])))
  }

  /** A section is a table exactly when its trimmed text starts with a pipe:
      it then yields a single table, or nothing when it does not parse to a
      table. Any other section yields one paragraph per line. */
  lemma SectionKinds(section: string)
    ensures var blocks := SectionBlocks(section);
      && (TrimmedStartsWith(section, '|') ==>
           |blocks| <= 1 && (|blocks| == 1 <==> |MarkdownTableToArray(section)| > 0)
           && forall b :: b in blocks ==> b == TableBlock(TableRows(MarkdownTableToArray(section))))
      && (!TrimmedStartsWith(section, '|') ==>
           |blocks| == Count(section, '\n') + 1
           && forall i :: 0 <= i < |blocks| ==> blocks[i] == ParagraphBlock(StripHeading(Split(section, '\n')[i])))
  {
  }

  /** The horizontal rule the export cuts the Markdown at. */
  const Rule := "\n---\n"

  /** Where the rule matches, a line break is followed by a dash. */
  lemma RuleMatchStart(s: string, j: nat)
    requires MatchAt(s, j, Rule)
    ensures s[j] == '\n' && s[j + 1] == '-'
  {
    var m := s[j..j + |Rule|];
    assert m == Rule;
    assert s[j] == m[0] && s[j + 1] == m[1];
  }

  /** The blocks of each section, section by section. */
  function PerSection(sections: seq<string>): (r: seq<seq<Block>>)
    ensures |r| == |sections|
    ensures forall i :: 0 <= i < |r| ==> r[i] == SectionBlocks(sections[i])
  {
    seq(|sections|, i requires 0 <= i < |sections| => SectionBlocks(sections[i]))
  }

  /** The blocks a DOCX export of `markdown` is built from: those of its
      sections, in section order. */
  function DocxPlan(markdown: string): seq<Block> {
    Flatten(PerSection(SplitKeeping(markdown, Rule)))
  }

  /** The export walks the sections in order, appending the blocks of each. */
  method ExportToDocx(markdown: string) returns (blocks: seq<Block>)
    ensures blocks == DocxPlan(markdown)
  {
    var sections := SplitKeeping(markdown, Rule);
    ghost var per := PerSection(sections);
    blocks := [];
    for n := 0 to |sections|
      invariant blocks == Flatten(per[..n])
    {
      var section := sections[n];
      FlattenPrefix(per, n);
      if TrimmedStartsWith(section, '|') {
        var table := MarkdownTableToArray(section);
        if |table| > 0 {
          blocks := blocks + [TableBlock(TableRows(table))];
        }
      } else {
        var lines := Split(section, '\n');
        blocks := blocks + seq(|lines|, i requires 0 <= i < |lines| => ParagraphBlock(StripHeading(lines[i])));
      }
    }
    assert per[..|sections|] == per;
  }

  /** Blocks keep section order: a document whose sections are those of `a`
      followed by those of `b` gets the blocks of `a`, then those of `b`. */
  lemma SectionOrder(a: seq<string>, b: seq<string>)
    ensures Flatten(PerSection(a + b)) == Flatten(PerSection(a)) + Flatten(PerSection(b))
  {
    var ab := a + b;
    assert forall i :: 0 <= i < |a| ==> ab[i] == a[i];
    assert forall i :: |a| <= i < |ab| ==> ab[i] == b[i - |a|];
    assert PerSection(ab) == PerSection(a) + PerSection(b);
    FlattenAppend(PerSection(a), PerSection(b));
  }

  /** A text section made of one line between two line breaks yields an
      empty paragraph, the line, and another empty paragraph. */
  lemma FramedLineParagraphs(section: string, line: string)
    requires '\n' !in line && '#' !in line && '|' !in line
    requires section == ['\n'] + line + ['\n']
    ensures SectionBlocks(section) == [ParagraphBlock(""), ParagraphBlock(line), ParagraphBlock("")]
  {
    assert section == ['\n'] + (line + ['\n']);
    if TrimmedStartsWith(section, '|') {
      TrimmedStartOccurs(section, '|');
      assert false;
    }
    SplitLeading(line + ['\n'], '\n');
    SplitTrailing(line, '\n');
    var lines := Split(section, '\n');
    assert lines == ["", line, ""];
    StripHeadingWithoutHash(line);
    var blocks := TextSectionBlocks(section);
    assert |blocks| == 3;
    assert blocks[0] == ParagraphBlock(StripHeading(lines[0]));
    assert blocks[1] == ParagraphBlock(StripHeading(lines[1]));
    assert blocks[2] == ParagraphBlock(StripHeading(lines[2]));
    assert StripHeading(lines[0]) == "" && StripHeading(lines[2]) == "";
    assert SectionBlocks(section) == blocks;
    SeqOfThree(blocks, ParagraphBlock(""), ParagraphBlock(line), ParagraphBlock(""));
  }

  /** Past its head, a sequence built by prepending one element is the tail. */
  lemma ConsIndex<T>(x: T, s: seq<T>)
    ensures forall j :: 1 <= j < |[x] + s| ==> ([x] + s)[j] == s[j - 1]
  {
  }

  /** A sequence of three known elements is their display. */
  lemma SeqOfThree<T>(s: seq<T>, a: T, b: T, c: T)
    requires |s| == 3 && s[0] == a && s[1] == b && s[2] == c
    ensures s == [a, b, c]
  {
  }

  /** Because the split keeps what it matched, every horizontal rule is itself
      a text section, and turns into three paragraphs: empty, `---`, empty. */
  lemma RuleParagraphs()
    ensures SectionBlocks(Rule) == [ParagraphBlock(""), ParagraphBlock("---"), ParagraphBlock("")]
  {
    assert Rule == ['\n'] + "---" + ['\n'];
    FramedLineParagraphs(Rule, "---");
  }

  lemma RuleSections(markdown: string, k: nat)
    requires k < |SplitKeeping(markdown, Rule)| && k % 2 == 1
    ensures SectionBlocks(SplitKeeping(markdown, Rule)[k]) == [ParagraphBlock(""), ParagraphBlock("---"), ParagraphBlock("")]
  {
    RuleParagraphs();
  }

  /** In text made of lines that each start with a pipe, a line break is
      always followed by a pipe. */
  lemma {:induction false} BreakThenPipe(lines: seq<string>, p: nat)
    requires forall i :: 0 <= i < |lines| ==> |lines[i]| > 0 && lines[i][0] == '|' && '\n' !in lines[i]
    requires p + 1 < |Join(lines, "\n")| && Join(lines, "\n")[p] == '\n'
    ensures Join(lines, "\n")[p + 1] == '|'
  {
    if |lines| > 1 {
      var rest := Join(lines[1..], "\n");
      assert Join(lines, "\n") == lines[0] + "\n" + rest;
      if p < |lines[0]| {
        assert false;
      } else if p > |lines[0]| {
        assert Join(lines, "\n")[p] == rest[p - |lines[0]| - 1];
        BreakThenPipe(lines[1..], p - |lines[0]| - 1);
      } else {
        assert rest[0] == lines[1][0] by {
          if |lines| > 2 {
            JoinCons(lines[1], lines[2..], "\n");
            assert lines[1..] == [lines[1]] + lines[2..];
          }
        }
      }
    }
  }

  /** End to end: a Markdown table on its own becomes one document table with
      the header row first and marked, and every other row unmarked. */
  lemma RenderedTableExport(header: seq<string>, rows: seq<seq<string>>)
    requires PlainRow(header) && forall r :: 0 <= r < |rows| ==> PlainRow(rows[r])
    ensures DocxPlan(RenderTable(header, rows)) == [TableBlock(TableRows([header] + rows))]
  {
    var md := RenderTable(header, rows);
    var lines := TableLines(header, rows);
    TableLinesShape(header, rows);
    assert md == Join(lines, "\n");
    forall j | 0 <= j ensures !MatchAt(md, j, Rule) {
      if MatchAt(md, j, Rule) {
        RuleMatchStart(md, j);
        BreakThenPipe(lines, j);
        assert false;
      }
    }
    assert SplitKeeping(md, Rule) == [md];
    assert Flatten(PerSection([md])) == SectionBlocks(md) by {
      assert PerSection([md])[..0] == [];
    }
    TableRoundTrip(header, rows);
    assert |md| > 0 && md[0] == '|' && md[|md| - 1] == '|' by {
      JoinPipeEnds(lines);
    }
    TrimUnchanged(md);
  }

  lemma {:induction false} JoinPipeEnds(lines: seq<string>)
    requires |lines| > 0
    requires forall i :: 0 <= i < |lines| ==> |lines[i]| > 0 && lines[i][0] == '|' && lines[i][|lines[i]| - 1] == '|'
    ensures var s := Join(lines, "\n"); |s| > 0 && s[0] == '|' && s[|s| - 1] == '|'
  {
    if |lines| > 1 {
      JoinPipeEnds(lines[1..]);
    }
  }
}
