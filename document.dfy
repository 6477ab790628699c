/**
 * The word-processing document as `process_template` sees it: sections with
 * a header and a footer, paragraphs made of formatting runs, and tables of
 * rows of cells. Only a run's text is ever changed, so `Run` is a class with
 * a mutable `text` (and its formatting, which the engine must not touch);
 * everything above the runs is an immutable value holding references to them.
 *
 * `VisitedRuns` lists the runs in the order the engine's loops reach them,
 * one entry per visit; `Reached` says declaratively where the engine looks.
 * A run may be reached more than once (a merged cell is listed by its row
 * once per grid column it spans, and by its table once per row; sections
 * whose header or footer is the same part share its runs), so the list may
 * repeat a run.
 */
module Document {

  /** The run's formatting (its run properties), kept opaque. */
  datatype RunFormat = RunFormat(properties: seq<(string, string)>)

  /** A formatting run: text sharing one formatting. */
  class Run {
    var text: string
    var fmt: RunFormat

    constructor (text: string, fmt: RunFormat)
      ensures this.text == text && this.fmt == fmt
    {
      this.text := text;
      this.fmt := fmt;
    }
  }

  /**
   * A paragraph's runs as python-docx's `paragraph.runs` lists them: only those
   * directly in the paragraph, not those inside hyperlinks, tracked insertions,
   * content controls or simple fields.
   */
  datatype Paragraph = Paragraph(runs: seq<Run>)

  /** A table cell holds paragraphs and, possibly, tables nested in it. */
  datatype Cell = Cell(paragraphs: seq<Paragraph>, tables: seq<Table>)

  datatype Row = Row(cells: seq<Cell>)

  datatype Table = Table(rows: seq<Row>)

  /** A header or a footer: paragraphs and tables, like the body. */
  datatype HeaderFooter = HeaderFooter(paragraphs: seq<Paragraph>, tables: seq<Table>)

  datatype Section = Section(header: HeaderFooter, footer: HeaderFooter)

  /** The body's paragraphs and tables, and the sections. */
  datatype Doc = Doc(paragraphs: seq<Paragraph>, tables: seq<Table>, sections: seq<Section>)

  /** The set of runs in a list, for frames. */
  ghost function RunSet(runs: seq<Run>): set<Run>
  {
    set r | r in runs
  }

  // The traversal, one function per loop of the engine. Each is defined on a
  // list by its last element so that a loop's progress is a prefix.

  ghost function ParagraphsRuns(ps: seq<Paragraph>): seq<Run>
  {
    if ps == [] then [] else ParagraphsRuns(ps[..|ps| - 1]) + ps[|ps| - 1].runs
  }

  /** The runs of a row's cells: only the cells' own paragraphs, not their nested tables. */
  ghost function CellsRuns(cells: seq<Cell>): seq<Run>
  {
    if cells == [] then [] else CellsRuns(cells[..|cells| - 1]) + ParagraphsRuns(cells[|cells| - 1].paragraphs)
  }

  ghost function RowsRuns(rows: seq<Row>): seq<Run>
  {
    if rows == [] then [] else RowsRuns(rows[..|rows| - 1]) + CellsRuns(rows[|rows| - 1].cells)
  }

  ghost function TablesRuns(ts: seq<Table>): seq<Run>
  {
    if ts == [] then [] else TablesRuns(ts[..|ts| - 1]) + RowsRuns(ts[|ts| - 1].rows)
  }

  ghost function HeaderFooterRuns(h: HeaderFooter): seq<Run>
  {
    ParagraphsRuns(h.paragraphs) + TablesRuns(h.tables)
  }

  ghost function SectionsRuns(ss: seq<Section>): seq<Run>
  {
    if ss == [] then []
    else SectionsRuns(ss[..|ss| - 1]) + HeaderFooterRuns(ss[|ss| - 1].header) + HeaderFooterRuns(ss[|ss| - 1].footer)
  }

  /** Every visit the engine makes, in order: body paragraphs, body tables, then each section's header and footer. */
  ghost function VisitedRuns(d: Doc): seq<Run>
  {
    ParagraphsRuns(d.paragraphs) + TablesRuns(d.tables) + SectionsRuns(d.sections)
  }

  /** How many times `r` occurs in a list of visits. */
  function Visits(s: seq<Run>, r: Run): nat
  {
    if s == [] then 0 else Visits(s[..|s| - 1], r) + (if s[|s| - 1] == r then 1 else 0)
  }

  /** Visits add up over consecutive stretches of the traversal. */
  lemma {:induction false} VisitsAppend(a: seq<Run>, b: seq<Run>, r: Run)
    ensures Visits(a + b, r) == Visits(a, r) + Visits(b, r)
    decreases |b|
  {
    if b == [] {
      assert a + b == a;
    } else {
      assert (a + b)[..|a + b| - 1] == a + b[..|b| - 1];
      VisitsAppend(a, b[..|b| - 1], r);
    }
  }

  /** A run is visited at least once exactly when it is in the list. */
  lemma {:induction false} VisitsPositive(s: seq<Run>, r: Run)
    ensures Visits(s, r) > 0 <==> r in s
  {
    if s != [] {
      VisitsPositive(s[..|s| - 1], r);
      assert s == s[..|s| - 1] + [s[|s| - 1]];
    }
  }

  /** `Visits` is the multiplicity of `r` in the multiset of the list. */
  lemma {:induction false} VisitsIsMultiplicity(s: seq<Run>, r: Run)
    ensures Visits(s, r) == multiset(s)[r]
  {
    if s != [] {
      VisitsIsMultiplicity(s[..|s| - 1], r);
      assert s == s[..|s| - 1] + [s[|s| - 1]];
    }
  }

  // One more element of a list adds its runs at the end.

  lemma AppendAssoc(a: seq<Run>, b: seq<Run>, c: seq<Run>)
    ensures a + (b + c) == a + b + c
  {
  }

  lemma ParagraphsRunsPrefix(ps: seq<Paragraph>, i: nat)
    requires i < |ps|
    ensures ParagraphsRuns(ps[..i + 1]) == ParagraphsRuns(ps[..i]) + ps[i].runs
  {
    assert ps[..i + 1][..i] == ps[..i];
  }

  lemma CellsRunsPrefix(cells: seq<Cell>, k: nat)
    requires k < |cells|
    ensures CellsRuns(cells[..k + 1]) == CellsRuns(cells[..k]) + ParagraphsRuns(cells[k].paragraphs)
  {
    assert cells[..k + 1][..k] == cells[..k];
  }

  lemma RowsRunsPrefix(rows: seq<Row>, j: nat)
    requires j < |rows|
    ensures RowsRuns(rows[..j + 1]) == RowsRuns(rows[..j]) + CellsRuns(rows[j].cells)
  {
    assert rows[..j + 1][..j] == rows[..j];
  }

  lemma TablesRunsPrefix(ts: seq<Table>, i: nat)
    requires i < |ts|
    ensures TablesRuns(ts[..i + 1]) == TablesRuns(ts[..i]) + RowsRuns(ts[i].rows)
  {
    assert ts[..i + 1][..i] == ts[..i];
  }

  lemma SectionsRunsPrefix(ss: seq<Section>, i: nat)
    requires i < |ss|
    ensures SectionsRuns(ss[..i + 1])
         == SectionsRuns(ss[..i]) + HeaderFooterRuns(ss[i].header) + HeaderFooterRuns(ss[i].footer)
  {
    assert ss[..i + 1][..i] == ss[..i];
  }

  // Where the engine looks, said without the traversal order.

  ghost predicate InParagraphs(ps: seq<Paragraph>, r: Run)
  {
    exists p | p in ps :: r in p.runs
  }

  ghost predicate InCells(cells: seq<Cell>, r: Run)
  {
    exists c | c in cells :: InParagraphs(c.paragraphs, r)
  }

  ghost predicate InRows(rows: seq<Row>, r: Run)
  {
    exists row | row in rows :: InCells(row.cells, r)
  }

  /** In a paragraph of a cell of one of the tables (not in a table nested in a cell). */
  ghost predicate InTables(ts: seq<Table>, r: Run)
  {
    exists t | t in ts :: InRows(t.rows, r)
  }

  ghost predicate InHeaderFooter(h: HeaderFooter, r: Run)
  {
    InParagraphs(h.paragraphs, r) || InTables(h.tables, r)
  }

  /** The run is in a place the engine rewrites. */
  ghost predicate Reached(d: Doc, r: Run)
  {
    || InParagraphs(d.paragraphs, r)
    || InTables(d.tables, r)
    || exists s | s in d.sections :: InHeaderFooter(s.header, r) || InHeaderFooter(s.footer, r)
  }

  lemma {:induction false} ParagraphsRunsMembers(ps: seq<Paragraph>, r: Run)
    ensures r in ParagraphsRuns(ps) <==> InParagraphs(ps, r)
  {
    if ps != [] {
      var front, last := ps[..|ps| - 1], ps[|ps| - 1];
      ParagraphsRunsMembers(front, r);
      assert ps == front + [last];
      if r in last.runs {
        assert InParagraphs(ps, r);
      }
      if InParagraphs(front, r) {
        var p :| p in front && r in p.runs;
        assert p in ps;
      }
    }
  }

  lemma {:induction false} CellsRunsMembers(cells: seq<Cell>, r: Run)
    ensures r in CellsRuns(cells) <==> InCells(cells, r)
  {
    if cells != [] {
      var front, last := cells[..|cells| - 1], cells[|cells| - 1];
      CellsRunsMembers(front, r);
      ParagraphsRunsMembers(last.paragraphs, r);
      assert cells == front + [last];
      if InParagraphs(last.paragraphs, r) {
        assert InCells(cells, r);
      }
      if InCells(front, r) {
        var c :| c in front && InParagraphs(c.paragraphs, r);
        assert c in cells;
      }
    }
  }

  lemma {:induction false} RowsRunsMembers(rows: seq<Row>, r: Run)
    ensures r in RowsRuns(rows) <==> InRows(rows, r)
  {
    if rows != [] {
      var front, last := rows[..|rows| - 1], rows[|rows| - 1];
      RowsRunsMembers(front, r);
      CellsRunsMembers(last.cells, r);
      assert rows == front + [last];
      if InCells(last.cells, r) {
        assert InRows(rows, r);
      }
      if InRows(front, r) {
        var row :| row in front && InCells(row.cells, r);
        assert row in rows;
      }
    }
  }

  lemma {:induction false} TablesRunsMembers(ts: seq<Table>, r: Run)
    ensures r in TablesRuns(ts) <==> InTables(ts, r)
  {
    if ts != [] {
      var front, last := ts[..|ts| - 1], ts[|ts| - 1];
      TablesRunsMembers(front, r);
      RowsRunsMembers(last.rows, r);
      assert ts == front + [last];
      if InRows(last.rows, r) {
        assert InTables(ts, r);
      }
      if InTables(front, r) {
        var t :| t in front && InRows(t.rows, r);
        assert t in ts;
      }
    }
  }

  lemma HeaderFooterRunsMembers(h: HeaderFooter, r: Run)
    ensures r in HeaderFooterRuns(h) <==> InHeaderFooter(h, r)
  {
    ParagraphsRunsMembers(h.paragraphs, r);
    TablesRunsMembers(h.tables, r);
  }

  lemma {:induction false} SectionsRunsMembers(ss: seq<Section>, r: Run)
    ensures r in SectionsRuns(ss) <==> exists s | s in ss :: InHeaderFooter(s.header, r) || InHeaderFooter(s.footer, r)
  {
    if ss != [] {
      var front, last := ss[..|ss| - 1], ss[|ss| - 1];
      SectionsRunsMembers(front, r);
      HeaderFooterRunsMembers(last.header, r);
      HeaderFooterRunsMembers(last.footer, r);
      assert ss == front + [last];
      if exists s | s in front :: InHeaderFooter(s.header, r) || InHeaderFooter(s.footer, r) {
        var s :| s in front && (InHeaderFooter(s.header, r) || InHeaderFooter(s.footer, r));
        assert s in ss;
      }
    }
  }

  /**
   * The traversal visits exactly the runs of the body paragraphs, of the
   * paragraphs of the cells of the body tables, and of the headers and
   * footers (their paragraphs and the paragraphs of their tables' cells).
   */
  lemma VisitedRunsAreReached(d: Doc, r: Run)
    ensures r in VisitedRuns(d) <==> Reached(d, r)
  {
    ParagraphsRunsMembers(d.paragraphs, r);
    TablesRunsMembers(d.tables, r);
    SectionsRunsMembers(d.sections, r);
  }

  // The same document with every table nested in a cell removed.

  function DropNestedCells(cells: seq<Cell>): (r: seq<Cell>)
    ensures |r| == |cells|
  {
    if cells == [] then []
    else DropNestedCells(cells[..|cells| - 1]) + [Cell(cells[|cells| - 1].paragraphs, [])]
  }

  function DropNestedRows(rows: seq<Row>): (r: seq<Row>)
    ensures |r| == |rows|
  {
    if rows == [] then []
    else DropNestedRows(rows[..|rows| - 1]) + [Row(DropNestedCells(rows[|rows| - 1].cells))]
  }

  function DropNestedTables(ts: seq<Table>): (r: seq<Table>)
    ensures |r| == |ts|
  {
    if ts == [] then []
    else DropNestedTables(ts[..|ts| - 1]) + [Table(DropNestedRows(ts[|ts| - 1].rows))]
  }

  function DropNestedHeaderFooter(h: HeaderFooter): HeaderFooter
  {
    HeaderFooter(h.paragraphs, DropNestedTables(h.tables))
  }

  function DropNestedSections(ss: seq<Section>): (r: seq<Section>)
    ensures |r| == |ss|
  {
    if ss == [] then []
    else
      var last := ss[|ss| - 1];
      DropNestedSections(ss[..|ss| - 1]) + [Section(DropNestedHeaderFooter(last.header), DropNestedHeaderFooter(last.footer))]
  }

  function DropNested(d: Doc): Doc
  {
    Doc(d.paragraphs, DropNestedTables(d.tables), DropNestedSections(d.sections))
  }

  lemma {:induction false} CellsIgnoreNested(cells: seq<Cell>)
    ensures CellsRuns(DropNestedCells(cells)) == CellsRuns(cells)
  {
    if cells != [] {
      var front := cells[..|cells| - 1];
      CellsIgnoreNested(front);
      assert DropNestedCells(cells)[..|cells| - 1] == DropNestedCells(front);
    }
  }

  lemma {:induction false} RowsIgnoreNested(rows: seq<Row>)
    ensures RowsRuns(DropNestedRows(rows)) == RowsRuns(rows)
  {
    if rows != [] {
      var front := rows[..|rows| - 1];
      RowsIgnoreNested(front);
      CellsIgnoreNested(rows[|rows| - 1].cells);
      assert DropNestedRows(rows)[..|rows| - 1] == DropNestedRows(front);
    }
  }

  lemma {:induction false} TablesIgnoreNested(ts: seq<Table>)
    ensures TablesRuns(DropNestedTables(ts)) == TablesRuns(ts)
  {
    if ts != [] {
      var front := ts[..|ts| - 1];
      TablesIgnoreNested(front);
      RowsIgnoreNested(ts[|ts| - 1].rows);
      assert DropNestedTables(ts)[..|ts| - 1] == DropNestedTables(front);
    }
  }

  lemma {:induction false} SectionsIgnoreNested(ss: seq<Section>)
    ensures SectionsRuns(DropNestedSections(ss)) == SectionsRuns(ss)
  {
    if ss != [] {
      var front, last := ss[..|ss| - 1], ss[|ss| - 1];
      SectionsIgnoreNested(front);
      TablesIgnoreNested(last.header.tables);
      TablesIgnoreNested(last.footer.tables);
      assert DropNestedSections(ss)[..|ss| - 1] == DropNestedSections(front);
    }
  }

  /**
   * The traversal goes one table level deep: removing every table nested in
   * a cell (and whatever runs it holds) leaves the visits exactly as they were.
   */
  lemma VisitsIgnoreNestedTables(d: Doc)
    ensures VisitedRuns(DropNested(d)) == VisitedRuns(d)
  {
    TablesIgnoreNested(d.tables);
    SectionsIgnoreNested(d.sections);
  }
}
