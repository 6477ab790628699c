# Cover letter generator: the template engine

The cover letter generator fills in a Word template for one client.
`process_template` builds a map from six placeholder tokens to the client's data:
`<<CLIENT_NAME>>`, `<<COMPANY>>`, `<<ADDRESS>>`, `<<ADDRESS_LINE_1>>`,
`<<ADDRESS_LINE_2>>` and `<<DATE>>`. It then walks the document: the body's
paragraphs, the paragraphs in the cells of the body's tables, and the same two
places in every section's header and footer. In each run that `paragraph.runs`
lists, it applies Python's `str.replace` once per key, in the map's insertion order. The
"Generate" button first checks that the client name, the company, the first
address line and the template are all given. It then offers the result for
download as `{name}_{company}_cover_letter.docx` or `.pdf`.

The project has five modules:

- `Replace` (replace.dfy) models Python's `str.replace` as `ReplaceAll`, a left-to-right scan. It is proved equal to `ReplaceByFind`, an independent find-and-jump definition built on `Find` (`str.find`). It also gives `Count` (`str.count`) and the facts the engine relies on.
- `Placeholders` (placeholders.dfy) holds the client record and the `replacements` map as its ordered list of items (`Replacements`). It defines `Substitute`, the inner loop of `replace_text` as a left fold of `ReplaceAll` over that list, and `SubstituteTimes`, that fold applied n times.
- `Document` (document.dfy) models the document. A `Run` is a class whose `text` the engine rewrites in place and whose formatting (`fmt`) it must not touch. Paragraphs, cells, rows, tables, headers, footers and sections are immutable values holding references to runs. `VisitedRuns` lists the runs in the order the engine's loops reach them, one entry per visit. `Reached` states the same places declaratively. `Visits` counts how often a run is reached.
- `TemplateEngine` (template_engine.dfy) models `process_template`. It has one method per function or loop of the source: `SubstituteRun` is the inner loop over the keys, proved against the fold `Substitute`; `ReplaceText`, `ProcessParagraphs`, `ProcessTables`, `ProcessRows` and `ProcessCells` are the loops over runs, paragraphs, tables, rows and cells, each proved to keep the invariant `SubstitutedPerVisit`; `ProcessHeaderFooter` is the loop-free body of the sections loop for one header or footer; and `ProcessTemplate` runs the body and the sections loop. After the traversal, every reached run holds its original text with `Substitute` applied once per visit. In the model, a run's formatting is unchanged and no run the traversal does not reach is modified; the model's runs hold only text and formatting, and its document structure is a value, so the python-docx effects listed under "## Left out" are outside what it shows.
- `CoverLetter` (cover_letter.dfy) models the button handler of `main`: the required-field check, the output file name, and the handler itself (`Generate`).

Behaviour of the code that the model keeps:

- Only tables directly in the body, the header or the footer are searched. `process_tables` looks at `cell.paragraphs` and never at `cell.tables`, so a placeholder inside a table nested in a cell is left as it is (`Document.VisitsIgnoreNestedTables`).
- A run is rewritten once per time the traversal reaches it. In python-docx this happens in two ways. `row.cells` returns a horizontally merged cell once for each column it spans, and a vertically merged cell once for each row it spans, so its runs are processed once per grid position. A section whose header or footer is linked to the previous section's shares that part's runs, so those runs are processed once per section. `TemplateEngine.ProcessTemplate` states the result for any number of visits, and states `Substitute` exactly once for a run reached once. A second pass is not always harmless. `Placeholders.ReplacementCanRecreateKey` shows a full pass over a run turning `<<<<DATE>>>>` into `<<DATE>>`, which a second pass turns into the date, although no client value contains `<<` or `>>`.
- Keys are replaced in the map's insertion order, and each `str.replace` works on the result of the previous one. A client value that contains another placeholder's token is therefore itself replaced when that token's key comes later in the order.

## Model

| member | source | states |
|---|---|---|
| Replace.FindLeftmost | test.py:24 | `Find` returns an occurrence of the key, no occurrence lies before it, and it finds nothing exactly when the key does not occur (the `key in run.text` test) |
| Replace.ReplaceAllIsReplaceByFind | test.py:25 | the scanning `str.replace` equals the find-and-jump reference definition on every input |
| Replace.ReplaceAbsent | test.py:24-25 | replacing a key that does not occur leaves the text unchanged, so the `if key in run.text` guard changes nothing |
| Replace.ReplaceWithItself | test.py:25 | replacing a key by itself leaves the text unchanged |
| Replace.ReplaceLength | test.py:25 | the result's length is the old length plus, for each occurrence, the value's length minus the key's |
| Replace.CountPositive | test.py:24 | there is at least one occurrence exactly when the key is in the text |
| Replace.ReplaceUnchangedIff | test.py:24-25 | one replacement leaves the text unchanged exactly when the key is absent or the value equals the key |
| Replace.SameLengthReplaceChanges | test.py:25 | a different value of the key's length changes any text that contains the key |
| Placeholders.Replacements | test.py:12-19 | the six keys in insertion order, none empty; the name, company, raw address lines and date as values; `<<ADDRESS>>` is both lines joined by a line break when the second line is non-empty and the first line alone otherwise |
| Placeholders.AddressValueSplits | test.py:15 | when the first address line has no line break, the `<<ADDRESS>>` value splits back into line 1 and line 2 at its first break |
| Placeholders.SubstituteNoKeys | test.py:23-25 | text in which no key occurs is unchanged by the inner loop |
| Placeholders.RunWithoutPlaceholdersUnchanged | test.py:21-25 | a run containing none of the six placeholders keeps its text |
| Placeholders.SubstituteTimesNoKeys | test.py:21-25 | such a run keeps its text however many times it is processed |
| Placeholders.SubstituteTimesAdd | test.py:42-49 | processing a run a times and then b times is processing it a + b times |
| Placeholders.SubstituteFixed | test.py:23-25 | text that every key's replacement leaves unchanged on its own comes out of the whole inner loop unchanged |
| Placeholders.ReplacementCanRecreateKey | test.py:21-25 | for the client with date `DATE` and no `<<`/`>>` in any value, one pass over the run `<<<<DATE>>>>` gives `<<DATE>>` and two passes give `DATE`, so a run reached twice differs from one reached once |
| Placeholders.ClientNameExample | test.py:12-25 | for one sample client (Jane Doe at Acme, 1 Main St, no second address line, January 01, 2024), a run holding `<<CLIENT_NAME>>` becomes `Jane Doe`; it is not a statement about every client, since a name holding another token is rewritten again later in the loop |
| Document.ParagraphsRunsMembers | test.py:27-29 | the runs `process_paragraphs` reaches are exactly the runs of the given paragraphs |
| Document.CellsRunsMembers | test.py:34-35 | the runs reached through a row's cells are exactly those of the cells' paragraphs |
| Document.RowsRunsMembers | test.py:33-35 | the runs reached through a table's rows are exactly those in the paragraphs of their cells |
| Document.TablesRunsMembers | test.py:31-35 | the runs `process_tables` reaches are exactly those in the paragraphs of the cells of the given tables |
| Document.HeaderFooterRunsMembers | test.py:44-49 | a header or footer contributes exactly the runs of its paragraphs and of its tables' cells |
| Document.SectionsRunsMembers | test.py:42-49 | the sections loop reaches exactly the runs of some section's header or footer |
| Document.VisitedRunsAreReached | test.py:37-49 | a run is visited exactly when it is in a body paragraph, in a body table's cell, or in a header or footer |
| Document.VisitsIgnoreNestedTables | test.py:31-35 | deleting every table nested inside a cell leaves the sequence of visited runs unchanged |
| Document.VisitsIsMultiplicity | test.py:37-49 | the visit count of a run is its multiplicity in the traversal |
| TemplateEngine.SubstituteRun | test.py:23-25 | after the inner loop, the run's text is the left fold of `str.replace` over the pairs in order |
| TemplateEngine.ReplaceText | test.py:21-25 | each run of the paragraph, in order, gets one more application of the substitution; the engine invariant is kept |
| TemplateEngine.ProcessParagraphs | test.py:27-29 | the paragraphs' runs, in order, each get one more application; the invariant is kept |
| TemplateEngine.ProcessTables | test.py:31-35 | the runs of the tables' cells' paragraphs each get one more application; nested tables are not entered |
| TemplateEngine.ProcessRows | test.py:33-35 | the runs in the cells of the rows each get one more application |
| TemplateEngine.ProcessCells | test.py:34-35 | the runs in the paragraphs of the cells each get one more application |
| TemplateEngine.ProcessHeaderFooter | test.py:44-45 | a header's (or footer's) paragraphs and then its tables are processed |
| TemplateEngine.ProcessTemplate | test.py:10-51 | the same document is returned; every reached run holds its original text substituted once per visit (exactly once when it is reached once); formatting is untouched; only reached runs change |
| CoverLetter.All | test.py:144 | Python's `all` over a list is true exactly when every element is |
| CoverLetter.ReadyToGenerate | test.py:144-146 | generation may proceed exactly when name, company and first address line are non-empty and a template is given |
| CoverLetter.OutputFileName | test.py:157-165 | the file name is the client name, an underscore, the company, then `_cover_letter.docx` or `_cover_letter.pdf` |
| CoverLetter.FileNameDeterminesClient | test.py:157 | when neither name contains an underscore, equal file names mean the same client name and company |
| CoverLetter.UnderscoresCollide | test.py:157 | `Ann_Lee` at `Acme` and `Ann` at `Lee_Acme` get the same file name |
| CoverLetter.Generate | test.py:143-172 | a missing field stops generation with no change to the template; otherwise the template is filled in and offered under `OutputFileName`, unless PDF conversion fails |

## Left out

- The PDF conversion through the CloudConvert web service (test.py:54-109) is network I/O. `Generate` takes its outcome as the parameter `conversionSucceeds`, and a failure leads to the error branch of the handler. The parameter assumes the conversion returns at all: the source polls the job status with no bound (test.py:97-100), so the handler may never finish, which the model does not capture.
- The Streamlit page (inputs, radio button, file uploader, download buttons and messages) is user-interface code. Its values are parameters of `Generate`.
- The date formatting with `strftime("%B %d, %Y")` (test.py:131) is not modelled. The date arrives as an already formatted string.
- Reading and saving the `.docx` file (python-docx's parser and writer) is a library call. The model starts from the document tree.
- A run's non-text content (page and column breaks, tabs, drawings, field characters) is not modelled: a `Run` holds only its text and formatting. In the source, assigning `run.text` (test.py:25) goes through python-docx's setter, which replaces all of the run's content except its run properties, so such content is lost from a run that held a placeholder, and a `\r` comes back as a line break. The `run.text` getter also leaves such elements out of the text that `key in run.text` searches.
- Reading `section.header` or `section.footer` (test.py:44-49) makes python-docx add a header or footer definition to the first section when no section up to the one read has one of its own (a later section without one uses the previous section's). The model's document structure is an immutable value, so it does not show this change of structure.
- Only each section's primary header and footer are visited (test.py:44-49). A first-page or even-page header or footer is never searched by the source, and the model's `Section` has no place for one.
- The model's `Paragraph.runs` stands for the runs python-docx's `paragraph.runs` returns (test.py:22): only the `w:r` elements directly under the paragraph. Runs nested in a hyperlink (`w:hyperlink`), a tracked insertion (`w:ins`), an inline content control (`w:sdt`) or a simple field (`w:fldSimple`) are not reached by the source, so a placeholder there stays as it is; the model has no place for such runs.
- A placeholder split across two runs is not found by the source, and the model keeps that behaviour: it works on each run's text alone.
- CoverLetter.Generate: models the handler's exception path only for a failed PDF conversion. A template that python-docx cannot open, or any other exception, is not modelled.
- TemplateEngine.ProcessTemplate: states run text and formatting. Paragraph and table structure is unchanged because the model represents it as immutable values, so no contract speaks about it.
