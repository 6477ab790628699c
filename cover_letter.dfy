/**
 * What the "Generate" button of the form does: refuse to go on unless the
 * client name, the company, the first address line and a template are all
 * given; otherwise fill in the template and offer it for download under a
 * name built from the client name and the company.
 */
module CoverLetter {
  import opened Placeholders
  import opened Document
  import opened TemplateEngine

  datatype Option<T> = None | Some(value: T)

  /** The two choices of the output-format radio button. */
  datatype OutputFormat = Docx | Pdf

  /** What the user sees after pressing the button. */
  datatype Outcome =
    | FieldsMissing            // "Please fill in all required fields and upload a template."
    | Failed                   // the exception handler: "An error occurred ..."
    | Delivered(fileName: string)

  /** Python's `all(values)`. */
  function All(values: seq<bool>): (r: bool)
    ensures r <==> forall i :: 0 <= i < |values| ==> values[i]
  {
    if values == [] then true else values[0] && All(values[1..])
  }

  /**
   * The guard of the button handler: `all([name, company, address1,
   * template_file])`, where a string counts when it is not empty. The second
   * address line and the date are not required.
   */
  function ReadyToGenerate(name: string, company: string, address1: string, hasTemplate: bool): (ok: bool)
    ensures ok <==> name != "" && company != "" && address1 != "" && hasTemplate
  {
    var values := [name != "", company != "", address1 != "", hasTemplate];
    assert values[0] == (name != "") && values[1] == (company != "");
    assert values[2] == (address1 != "") && values[3] == hasTemplate;
    All(values)
  }

  const DocxSuffix: string := "_cover_letter.docx"
  const PdfSuffix: string := "_cover_letter.pdf"

  function Suffix(format: OutputFormat): string
  {
    match format
    case Docx => DocxSuffix
    case Pdf => PdfSuffix
  }

  /** The download's file name: `{name}_{company}_cover_letter.docx` or `.pdf`. */
  function OutputFileName(name: string, company: string, format: OutputFormat): (f: string)
    ensures |f| == |name| + 1 + |company| + |Suffix(format)|
    ensures f[..|name|] == name && f[|name|] == '_'
    ensures f[|name| + 1..|name| + 1 + |company|] == company
    ensures f[|name| + 1 + |company|..] == Suffix(format)
  {
    name + "_" + company + Suffix(format)
  }

  /**
   * When neither name contains an underscore, the file name determines the
   * client name and the company: the first underscore ends the name.
   */
  lemma FileNameDeterminesClient(name: string, company: string, name': string, company': string, format: OutputFormat)
    requires '_' !in name && '_' !in name'
    requires OutputFileName(name, company, format) == OutputFileName(name', company', format)
    ensures name == name' && company == company'
  {
  }

  /** ... but an underscore inside the name makes two clients share a file name. */
  lemma UnderscoresCollide()
    ensures OutputFileName("Ann_Lee", "Acme", Docx) == OutputFileName("Ann", "Lee_Acme", Docx)
  {
  }

  /**
   * The button handler of `main`. The template is the uploaded document, if
   * any; `conversionSucceeds` stands for the outcome of the PDF conversion
   * service, which is not part of this model. Nothing is touched when a
   * required field is missing; otherwise every run the engine reaches is
   * filled in, and the file is offered under `OutputFileName` unless the
   * conversion to PDF failed.
   */
  method Generate(name: string, company: string, address1: string, address2: string, date: string,
                  template: Option<Doc>, format: OutputFormat, conversionSucceeds: bool)
    returns (outcome: Outcome)
    modifies (if template.Some? then RunSet(VisitedRuns(template.value)) else {})`text
    ensures !ReadyToGenerate(name, company, address1, template.Some?) ==> outcome == FieldsMissing
    ensures !ReadyToGenerate(name, company, address1, template.Some?) && template.Some? ==>
      forall r: Run | r in VisitedRuns(template.value) :: r.text == old(r.text)
    ensures ReadyToGenerate(name, company, address1, template.Some?) ==>
      outcome == (if format == Pdf && !conversionSucceeds then Failed
                  else Delivered(OutputFileName(name, company, format)))
    ensures ReadyToGenerate(name, company, address1, template.Some?) ==>
      var doc, pairs := template.value, Replacements(ClientInfo(name, company, address1, address2, date));
      forall r: Run | r in VisitedRuns(doc) ::
        r.text == SubstituteTimes(old(r.text), pairs, Visits(VisitedRuns(doc), r))
    ensures template.Some? ==> forall r: Run | r in VisitedRuns(template.value) :: r.fmt == old(r.fmt)
  {
    if !ReadyToGenerate(name, company, address1, template.Some?) {
      return FieldsMissing;
    }
    var client := ClientInfo(name, company, address1, address2, date);
    var result := ProcessTemplate(template.value, client);
    if format == Pdf && !conversionSucceeds {
      outcome := Failed;
    } else {
      outcome := Delivered(OutputFileName(name, company, format));
    }
  }
}
