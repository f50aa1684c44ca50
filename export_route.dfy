/**
 * The `POST` handler of the redline export endpoint
 * (app/api/export-redline/route.ts): the password check, the required
 * analysis, the option defaults and the choice between the tracked-changes
 * redline and the clause-review summary.
 */
module ExportRoute {
  import opened Wrappers
  import opened Types
  import opened Assembler

  /** `Partial<ExportOptions>` as sent by the client; `None` is a field left out. */
  datatype PartialOptions = PartialOptions(author: Option<string>, includeComments: Option<bool>, filename: Option<string>)

  /** The request: the password header and the fields of the JSON body (`None` is absent or `null`). */
  datatype ExportRequest = ExportRequest(
    password: Option<string>,
    parsedDocument: Option<ParsedDocument>,
    analysisResult: Option<AnalysisResult>,
    selectedEdits: Option<seq<EditOperation>>,
    options: Option<PartialOptions>)

  /** The document the handler builds: a redline, or the clause review from the analysis alone. */
  datatype Built =
    | RedlineDoc(doc: RedlineOutput)
    | ClauseReview(analysis: AnalysisResult, options: ExportOptions)

  datatype ExportResponse =
    | ErrorResponse(status: nat, error: string)
    | FileResponse(contentType: string, disposition: string, built: Built)

  const DefaultAuthor := "Consello Legal AI"
  const DefaultFilename := "document-redline.docx"
  const DocxContentType := "application/vnd.openxmlformats-officedocument.wordprocessingml.document"

  /**
   * `authHeader !== process.env.APP_PASSWORD`, negated: the header is present
   * and equals the configured password. A missing header never matches, nor
   * does anything when no password is configured.
   */
  predicate Authorized(expected: Option<string>, header: Option<string>)
  {
    header.Some? && expected.Some? && header.value == expected.value
  }

  /** `value || fallback` on an optional string. */
  function OrDefault(value: Option<string>, fallback: string): (r: string)
    ensures Truthy(value) ==> r == value.value
    ensures !Truthy(value) ==> r == fallback
  {
    if Truthy(value) then value.value else fallback
  }

  /**
   * The `exportOptions` record: the author and the file name fall back to
   * their defaults when absent or empty, and comments are included unless
   * the client sent exactly `false`.
   */
  function ResolveOptions(options: Option<PartialOptions>): (r: ExportOptions)
    ensures r.author != "" && r.filename != ""
    ensures options.None? ==> r == ExportOptions(DefaultAuthor, true, DefaultFilename)
    ensures options.Some? ==>
      && (Truthy(options.value.author) ==> r.author == options.value.author.value)
      && (!Truthy(options.value.author) ==> r.author == DefaultAuthor)
      && (Truthy(options.value.filename) ==> r.filename == options.value.filename.value)
      && (!Truthy(options.value.filename) ==> r.filename == DefaultFilename)
    ensures !r.includeComments <==> options.Some? && options.value.includeComments == Some(false)
  {
    var o := if options.Some? then options.value else PartialOptions(None, None, None);
    ExportOptions(OrDefault(o.author, DefaultAuthor), o.includeComments != Some(false), OrDefault(o.filename, DefaultFilename))
  }

  /**
   * The `Content-Disposition` header for `filename || 'redline.docx'`; the
   * fallback is dead in `Post`, whose file name is never empty.
   */
  function Disposition(filename: string): (r: string)
    ensures filename != "" ==> r == "attachment; filename=\"" + filename + "\""
  {
    var name := if filename != "" then filename else "redline.docx";
    "attachment; filename=\"" + name + "\""
  }

  /** `selectedEdits.length > 0 && parsedDocument`: the request asks for a tracked-changes redline. */
  predicate WantsRedline(req: ExportRequest)
  {
    req.selectedEdits.Some? && |req.selectedEdits.value| > 0 && req.parsedDocument.Some?
  }

  /**
   * `POST`: 401 unless the password matches, then 400 without an analysis,
   * otherwise the document, built as a redline when there are selected
   * edits and a parsed document and as the clause review otherwise.
   */
  function Post(expected: Option<string>, req: ExportRequest): (r: ExportResponse)
    ensures r == ErrorResponse(401, "Unauthorized") <==> !Authorized(expected, req.password)
    ensures r == ErrorResponse(400, "analysisResult is required") <==>
      Authorized(expected, req.password) && req.analysisResult.None?
    ensures r.FileResponse? <==> Authorized(expected, req.password) && req.analysisResult.Some?
    ensures r.FileResponse? ==>
      && r.contentType == DocxContentType
      && r.disposition == "attachment; filename=\"" + ResolveOptions(req.options).filename + "\""
      && (r.built.RedlineDoc? <==> WantsRedline(req))
      && (r.built.RedlineDoc? ==>
            r.built.doc == RedlineDocument(req.parsedDocument.value, req.analysisResult.value,
                                           req.selectedEdits.value, ResolveOptions(req.options)))
      && (r.built.ClauseReview? ==> r.built == ClauseReview(req.analysisResult.value, ResolveOptions(req.options)))
  {
    if !Authorized(expected, req.password) then ErrorResponse(401, "Unauthorized")
    else if req.analysisResult.None? then ErrorResponse(400, "analysisResult is required")
    else
      var analysis := req.analysisResult.value;
      var selectedEdits := if req.selectedEdits.Some? then req.selectedEdits.value else [];
      var exportOptions := ResolveOptions(req.options);
      var built :=
        if |selectedEdits| > 0 && req.parsedDocument.Some? then
          RedlineDoc(RedlineDocument(req.parsedDocument.value, analysis, selectedEdits, exportOptions))
        else
          ClauseReview(analysis, exportOptions);
      FileResponse(DocxContentType, Disposition(exportOptions.filename), built)
  }

  /**
   * The password is checked first: a request without the right password is
   * refused the same way whatever its body holds, so no document is built.
   */
  lemma UnauthorizedIgnoresBody(expected: Option<string>, req: ExportRequest, other: ExportRequest)
    requires !Authorized(expected, req.password) && other.password == req.password
    ensures Post(expected, req) == Post(expected, other) == ErrorResponse(401, "Unauthorized")
  {
  }

  /**
   * The mode is chosen before the edits are checked against the blocks: a
   * request whose edits all name unknown blocks still gets a redline, one
   * in which validation keeps no edit.
   */
  lemma UnknownEditsStillRedline(expected: Option<string>, req: ExportRequest)
    requires Authorized(expected, req.password) && req.analysisResult.Some? && WantsRedline(req)
    requires forall e :: e in req.selectedEdits.value ==> e.blockId !in BlockIds(req.parsedDocument.value.blocks)
    ensures Post(expected, req).FileResponse? && Post(expected, req).built.RedlineDoc?
    ensures KnownEdits(BlockIds(req.parsedDocument.value.blocks), req.selectedEdits.value) == []
  {
    var ids := BlockIds(req.parsedDocument.value.blocks);
    var edits := req.selectedEdits.value;
    KnownEditsMembers(ids, edits);
    assert forall e :: e !in KnownEdits(ids, edits);
  }
}
