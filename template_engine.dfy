/**
 * `process_template`: rewrite, in place, the text of every run the engine's
 * loops reach. Each method below is one of the source's loops. The nested
 * loops share one invariant, `SubstitutedPerVisit`: every run being tracked
 * holds its original text with `Substitute` applied once per visit made so
 * far. Each loop extends the list of visits by the runs it reaches, and,
 * in the model, touches nothing but run text (a run's non-text content and
 * the header parts python-docx may add are not part of the model).
 *
 * A run reached `n` times ends with `Substitute` applied `n` times; in a
 * document where every run sits in one place, that is exactly once.
 */
module TemplateEngine {
  import opened Replace
  import opened Placeholders
  import opened Document

  /**
   * The engine's invariant: each run of `tracked` has had `Substitute`
   * applied to its `original` text once per occurrence in `visits`.
   */
  ghost predicate SubstitutedPerVisit(tracked: set<Run>, original: map<Run, string>, visits: seq<Run>, pairs: seq<(string, string)>)
    reads tracked
  {
    ValidPairs(pairs) && tracked <= original.Keys &&
    forall r: Run {:trigger original[r]} | r in tracked :: r.text == SubstituteTimes(original[r], pairs, Visits(visits, r))
  }

  /** The inner loop of `replace_text`: each key in order, replaced only when present. */
  method SubstituteRun(run: Run, pairs: seq<(string, string)>)
    requires ValidPairs(pairs)
    modifies run`text
    ensures run.text == Substitute(old(run.text), pairs)
  {
    var i := 0;
    while i < |pairs|
      invariant 0 <= i <= |pairs|
      invariant run.text == Substitute(old(run.text), pairs[..i])
    {
      var key, val := pairs[i].0, pairs[i].1;
      if Contains(run.text, key) {
        run.text := ReplaceAll(run.text, key, val);
      } else {
        ReplaceAbsent(run.text, key, val);
      }
      assert pairs[..i + 1][..i] == pairs[..i];
      i := i + 1;
    }
    assert pairs[..i] == pairs;
  }

  /** `replace_text(paragraph)`: every run of the paragraph, in order, is one more visit. */
  method ReplaceText(p: Paragraph, pairs: seq<(string, string)>,
                     ghost tracked: set<Run>, ghost original: map<Run, string>, ghost visits: seq<Run>)
    requires SubstitutedPerVisit(tracked, original, visits, pairs)
    modifies RunSet(p.runs)`text
    ensures SubstitutedPerVisit(tracked, original, visits + p.runs, pairs)
  {
    assert visits + p.runs[..0] == visits;
    var i := 0;
    while i < |p.runs|
      invariant 0 <= i <= |p.runs|
      invariant SubstitutedPerVisit(tracked, original, visits + p.runs[..i], pairs)
    {
      ghost var done := visits + p.runs[..i];
      var run := p.runs[i];
      label step:
      SubstituteRun(run, pairs);
      forall r: Run | r in tracked
        ensures r.text == SubstituteTimes(original[r], pairs, Visits(done + [run], r))
      {
        assert (done + [run])[..|done + [run]| - 1] == done;
        assert old@step(r.text) == SubstituteTimes(original[r], pairs, Visits(done, r));
      }
      assert done + [run] == visits + p.runs[..i + 1];
      i := i + 1;
    }
    assert p.runs[..i] == p.runs;
  }

  /** `process_paragraphs(paragraphs)`: the runs of every paragraph, in order. */
  method ProcessParagraphs(ps: seq<Paragraph>, pairs: seq<(string, string)>,
                           ghost tracked: set<Run>, ghost original: map<Run, string>, ghost visits: seq<Run>)
    requires SubstitutedPerVisit(tracked, original, visits, pairs)
    modifies RunSet(ParagraphsRuns(ps))`text
    ensures SubstitutedPerVisit(tracked, original, visits + ParagraphsRuns(ps), pairs)
  {
    assert visits + ParagraphsRuns(ps[..0]) == visits;
    var i := 0;
    while i < |ps|
      invariant 0 <= i <= |ps|
      invariant SubstitutedPerVisit(tracked, original, visits + ParagraphsRuns(ps[..i]), pairs)
    {
      ParagraphRunsIncluded(ps, i);
      ReplaceText(ps[i], pairs, tracked, original, visits + ParagraphsRuns(ps[..i]));
      ParagraphsRunsPrefix(ps, i);
      AppendAssoc(visits, ParagraphsRuns(ps[..i]), ps[i].runs);
      i := i + 1;
    }
    assert ps[..i] == ps;
  }

  /**
   * `process_template(doc, client_info)`: the body's paragraphs, the body's
   * tables, then each section's header and footer (paragraphs, then tables).
   * The document's structure is returned as it was; only run text changes,
   * and only that of the runs the traversal reaches: each ends with
   * `Substitute` applied once per visit, so once for a run that sits in one
   * place.
   */
  method ProcessTemplate(doc: Doc, client: ClientInfo) returns (result: Doc)
    modifies RunSet(VisitedRuns(doc))`text
    ensures result == doc
    ensures forall r: Run | r in VisitedRuns(doc) ::
      r.text == SubstituteTimes(old(r.text), Replacements(client), Visits(VisitedRuns(doc), r))
    ensures forall r: Run | r in VisitedRuns(doc) && Visits(VisitedRuns(doc), r) == 1 ::
      r.text == Substitute(old(r.text), Replacements(client))
    ensures forall r: Run | r in VisitedRuns(doc) :: r.fmt == old(r.fmt)
  {
    var pairs := Replacements(client);
    ghost var tracked := RunSet(VisitedRuns(doc));
    ghost var original: map<Run, string> := map r: Run | r in tracked :: r.text;
    ghost var done: seq<Run> := [];
    ProcessParagraphs(doc.paragraphs, pairs, tracked, original, done);
    done := done + ParagraphsRuns(doc.paragraphs);
    ProcessTables(doc.tables, pairs, tracked, original, done);
    done := done + TablesRuns(doc.tables);
    assert done == ParagraphsRuns(doc.paragraphs) + TablesRuns(doc.tables) + SectionsRuns(doc.sections[..0]);
    var i := 0;
    while i < |doc.sections|
      invariant 0 <= i <= |doc.sections|
      invariant done == ParagraphsRuns(doc.paragraphs) + TablesRuns(doc.tables) + SectionsRuns(doc.sections[..i])
      invariant SubstitutedPerVisit(tracked, original, done, pairs)
    {
      var section := doc.sections[i];
      SectionRunsIncluded(doc, i);
      ProcessHeaderFooter(section.header, pairs, tracked, original, done);
      done := done + HeaderFooterRuns(section.header);
      ProcessHeaderFooter(section.footer, pairs, tracked, original, done);
      done := done + HeaderFooterRuns(section.footer);
      SectionsRunsPrefix(doc.sections, i);
      ghost var bodyRuns := ParagraphsRuns(doc.paragraphs) + TablesRuns(doc.tables);
      AppendAssoc(bodyRuns, SectionsRuns(doc.sections[..i]) + HeaderFooterRuns(section.header), HeaderFooterRuns(section.footer));
      AppendAssoc(bodyRuns, SectionsRuns(doc.sections[..i]), HeaderFooterRuns(section.header));
      i := i + 1;
    }
    assert doc.sections[..i] == doc.sections;
    forall r: Run | r in VisitedRuns(doc)
      ensures r.text == SubstituteTimes(old(r.text), pairs, Visits(VisitedRuns(doc), r))
    {
      assert r in tracked && original[r] == old(r.text);
    }
    result := doc;
  }

  /** The body of the section loop, for one header or footer: its paragraphs, then its tables. */
  method ProcessHeaderFooter(h: HeaderFooter, pairs: seq<(string, string)>,
                             ghost tracked: set<Run>, ghost original: map<Run, string>, ghost visits: seq<Run>)
    requires SubstitutedPerVisit(tracked, original, visits, pairs)
    modifies RunSet(HeaderFooterRuns(h))`text
    ensures SubstitutedPerVisit(tracked, original, visits + HeaderFooterRuns(h), pairs)
  {
    ProcessParagraphs(h.paragraphs, pairs, tracked, original, visits);
    ProcessTables(h.tables, pairs, tracked, original, visits + ParagraphsRuns(h.paragraphs));
    AppendAssoc(visits, ParagraphsRuns(h.paragraphs), TablesRuns(h.tables));
  }

  /** `process_tables(tables)`: every row of every table; nested tables are not entered. */
  method ProcessTables(ts: seq<Table>, pairs: seq<(string, string)>,
                       ghost tracked: set<Run>, ghost original: map<Run, string>, ghost visits: seq<Run>)
    requires SubstitutedPerVisit(tracked, original, visits, pairs)
    modifies RunSet(TablesRuns(ts))`text
    ensures SubstitutedPerVisit(tracked, original, visits + TablesRuns(ts), pairs)
  {
    assert visits + TablesRuns(ts[..0]) == visits;
    var i := 0;
    while i < |ts|
      invariant 0 <= i <= |ts|
      invariant SubstitutedPerVisit(tracked, original, visits + TablesRuns(ts[..i]), pairs)
    {
      TableRunsIncluded(ts, i);
      ProcessRows(ts[i].rows, pairs, tracked, original, visits + TablesRuns(ts[..i]));
      TablesRunsPrefix(ts, i);
      AppendAssoc(visits, TablesRuns(ts[..i]), RowsRuns(ts[i].rows));
      i := i + 1;
    }
    assert ts[..i] == ts;
  }

  /** The middle loop of `process_tables`: every cell of every row of one table. */
  method ProcessRows(rows: seq<Row>, pairs: seq<(string, string)>,
                     ghost tracked: set<Run>, ghost original: map<Run, string>, ghost visits: seq<Run>)
    requires SubstitutedPerVisit(tracked, original, visits, pairs)
    modifies RunSet(RowsRuns(rows))`text
    ensures SubstitutedPerVisit(tracked, original, visits + RowsRuns(rows), pairs)
  {
    assert visits + RowsRuns(rows[..0]) == visits;
    var j := 0;
    while j < |rows|
      invariant 0 <= j <= |rows|
      invariant SubstitutedPerVisit(tracked, original, visits + RowsRuns(rows[..j]), pairs)
    {
      RowRunsIncluded(rows, j);
      ProcessCells(rows[j].cells, pairs, tracked, original, visits + RowsRuns(rows[..j]));
      RowsRunsPrefix(rows, j);
      AppendAssoc(visits, RowsRuns(rows[..j]), CellsRuns(rows[j].cells));
      j := j + 1;
    }
    assert rows[..j] == rows;
  }

  /** The inner loop of `process_tables`: the paragraphs of every cell of one row, not its nested tables. */
  method ProcessCells(cells: seq<Cell>, pairs: seq<(string, string)>,
                      ghost tracked: set<Run>, ghost original: map<Run, string>, ghost visits: seq<Run>)
    requires SubstitutedPerVisit(tracked, original, visits, pairs)
    modifies RunSet(CellsRuns(cells))`text
    ensures SubstitutedPerVisit(tracked, original, visits + CellsRuns(cells), pairs)
  {
    assert visits + CellsRuns(cells[..0]) == visits;
    var k := 0;
    while k < |cells|
      invariant 0 <= k <= |cells|
      invariant SubstitutedPerVisit(tracked, original, visits + CellsRuns(cells[..k]), pairs)
    {
      CellRunsIncluded(cells, k);
      ProcessParagraphs(cells[k].paragraphs, pairs, tracked, original, visits + CellsRuns(cells[..k]));
      CellsRunsPrefix(cells, k);
      AppendAssoc(visits, CellsRuns(cells[..k]), ParagraphsRuns(cells[k].paragraphs));
      k := k + 1;
    }
    assert cells[..k] == cells;
  }

  // Each loop's body writes only within the loop's own frame.

  lemma SectionRunsIncluded(d: Doc, i: nat)
    requires i < |d.sections|
    ensures RunSet(HeaderFooterRuns(d.sections[i].header)) <= RunSet(VisitedRuns(d))
    ensures RunSet(HeaderFooterRuns(d.sections[i].footer)) <= RunSet(VisitedRuns(d))
  {
    var s := d.sections[i];
    assert s in d.sections;
    forall r: Run | r in HeaderFooterRuns(s.header) ensures r in VisitedRuns(d) {
      HeaderFooterRunsMembers(s.header, r);
      SectionsRunsMembers(d.sections, r);
    }
    forall r: Run | r in HeaderFooterRuns(s.footer) ensures r in VisitedRuns(d) {
      HeaderFooterRunsMembers(s.footer, r);
      SectionsRunsMembers(d.sections, r);
    }
  }

  lemma TableRunsIncluded(ts: seq<Table>, i: nat)
    requires i < |ts|
    ensures RunSet(RowsRuns(ts[i].rows)) <= RunSet(TablesRuns(ts))
  {
    forall r: Run | r in RowsRuns(ts[i].rows) ensures r in TablesRuns(ts) {
      RowsRunsMembers(ts[i].rows, r);
      TablesRunsMembers(ts, r);
      assert ts[i] in ts;
    }
  }

  lemma RowRunsIncluded(rows: seq<Row>, j: nat)
    requires j < |rows|
    ensures RunSet(CellsRuns(rows[j].cells)) <= RunSet(RowsRuns(rows))
  {
    forall r: Run | r in CellsRuns(rows[j].cells) ensures r in RowsRuns(rows) {
      CellsRunsMembers(rows[j].cells, r);
      RowsRunsMembers(rows, r);
      assert rows[j] in rows;
    }
  }

  lemma CellRunsIncluded(cells: seq<Cell>, k: nat)
    requires k < |cells|
    ensures RunSet(ParagraphsRuns(cells[k].paragraphs)) <= RunSet(CellsRuns(cells))
  {
    forall r: Run | r in ParagraphsRuns(cells[k].paragraphs) ensures r in CellsRuns(cells) {
      ParagraphsRunsMembers(cells[k].paragraphs, r);
      CellsRunsMembers(cells, r);
      assert cells[k] in cells;
    }
  }

  /** The runs of `ps[i]` are among those of `ps`. */
  lemma ParagraphRunsIncluded(ps: seq<Paragraph>, i: nat)
    requires i < |ps|
    ensures RunSet(ps[i].runs) <= RunSet(ParagraphsRuns(ps))
  {
    forall r: Run | r in ps[i].runs ensures r in ParagraphsRuns(ps) {
      ParagraphsRunsMembers(ps, r);
      assert ps[i] in ps;
    }
  }
}
