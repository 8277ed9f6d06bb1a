/** What the API client accepts from the backend (src/client/request.ts): the
    Zod schemas, read as parsers over the JSON body, the status transform, and
    the rule that a body failing its schema is rejected. The HTTP calls
    themselves are not modelled; their outcome is an input. */
module RequestClient {
  import opened Wrappers
  import opened JsValues
  import opened Constants

  datatype TemplateVariable = TemplateVariable(name: string, required: bool, showOnExcel: bool)

  /** A parsed document. `signStatus` is `Zod.any()`: whatever the backend sent,
      `None` when the key is absent. */
  datatype ApiDocument = ApiDocument(
    id: string,
    name: string,
    filePath: string,
    uploadedAt: string,
    signedDate: Option<string>,
    signStatus: Option<Json>,
    data: Fields,
    rejectionReason: Option<string>)

  /** A parsed request. `status` is the display label produced by the status
      transform (`None` is `undefined`). */
  datatype ApiRequest = ApiRequest(
    id: string,
    title: string,
    url: Option<string>,
    documentCount: int,
    rejectedCount: int,
    createdAt: string,
    status: Option<string>,
    templateVariables: Option<seq<TemplateVariable>>,
    documents: Option<seq<ApiDocument>>,
    createdBy: Option<string>,
    rejectionReason: Option<string>)

  datatype Officer = Officer(id: string, name: string)

  /** `AsWritten` is the schema of the source: Zod objects strip every key they
      do not declare, so `createdBy` and both `rejectionReason` fields are
      dropped. `Corrected` also reads those three, keeping a string and
      treating any other value as absent, so that it accepts exactly the
      bodies the source accepts. */
  datatype Schema = AsWritten | Corrected

  const InvalidData: string := "Invalid data from backend"

  /** The `status` transform: a number is looked up in the catalog, an absent
      status reads as "Unsigned". */
  function DecodeStatus(code: Option<int>): (name: Option<string>)
    ensures code.None? ==> name == Some("Unsigned")
    ensures code.Some? ==> (name.Some? <==> IsStatusCode(code.value))
    ensures code.Some? && IsStatusCode(code.value) ==> name == Label(code.value)
    ensures name.Some? ==> name.value in SignStatusDisplay.Values
  {
    match code
    case Some(n) => Label(n)
    case None => Label(Unsigned)
  }

  // Field readers with Zod's semantics: a required field must be present with
  // the right type; an optional one may be absent, but not present with
  // another type (JSON `null` included).

  function RequiredString(v: Option<Json>): (r: Option<string>)
    ensures r.Some? ==> v == Some(Str(r.value))
  {
    match v
    case Some(Str(s)) => Some(s)
    case _ => None
  }

  function OptionalString(v: Option<Json>): Option<Option<string>> {
    match v
    case None => Some(None)
    case Some(Str(s)) => Some(Some(s))
    case Some(_) => None
  }

  function RequiredNumber(v: Option<Json>): Option<int> {
    match v
    case Some(Num(n)) => Some(n)
    case _ => None
  }

  function OptionalNumber(v: Option<Json>): Option<Option<int>> {
    match v
    case None => Some(None)
    case Some(Num(n)) => Some(Some(n))
    case Some(_) => None
  }

  function RequiredBool(v: Option<Json>): (r: Option<bool>)
    ensures r.Some? ==> v == Some(Bool(r.value))
  {
    match v
    case Some(Bool(b)) => Some(b)
    case _ => None
  }

  /** A key the schema as written does not declare, read without affecting
      acceptance: a string is kept, anything else (`null` included) reads as
      absent. */
  function LenientString(v: Option<Json>): (r: Option<string>)
    ensures r.Some? <==> v.Some? && v.value.Str?
    ensures r.Some? ==> v == Some(Str(r.value))
  {
    match v
    case Some(Str(s)) => Some(s)
    case _ => None
  }

  /** `Zod.record(Zod.any())`: any object. */
  function RequiredRecord(v: Option<Json>): (r: Option<Fields>)
    ensures r.Some? ==> v == Some(Obj(r.value))
  {
    match v
    case Some(Obj(f)) => Some(f)
    case _ => None
  }

  /** `Zod.array(item)`: an array all of whose elements parse. */
  function ParseEach<T>(items: seq<Json>, parse: Json -> Option<T>): (r: Option<seq<T>>)
    ensures r.Some? <==> forall i :: 0 <= i < |items| ==> parse(items[i]).Some?
    ensures r.Some? ==> |r.value| == |items| && forall i :: 0 <= i < |items| ==> parse(items[i]) == Some(r.value[i])
  {
    if items == [] then Some([])
    else
      var head :- parse(items[0]);
      var tail :- ParseEach(items[1..], parse);
      Some([head] + tail)
  }

  function OptionalArray<T>(v: Option<Json>, parse: Json -> Option<T>): (r: Option<Option<seq<T>>>)
    ensures r.Some? && v.None? ==> r.value.None?
    ensures r.Some? && r.value.Some? ==>
      && v.Some? && v.value.Arr? && |r.value.value| == |v.value.items|
      && forall i :: 0 <= i < |v.value.items| ==> parse(v.value.items[i]) == Some(r.value.value[i])
  {
    match v
    case None => Some(None)
    case Some(Arr(items)) =>
      var r :- ParseEach(items, parse);
      Some(Some(r))
    case Some(_) => None
  }

  /** `templateVariablesSchema`. */
  function ParseTemplateVariable(j: Json): (r: Option<TemplateVariable>)
    ensures r.Some? <==> j.Obj? && RequiredString(Get(j.fields, "name")).Some? &&
                         RequiredBool(Get(j.fields, "required")).Some? && RequiredBool(Get(j.fields, "showOnExcel")).Some?
    ensures r.Some? ==> Get(j.fields, "name") == Some(Str(r.value.name)) &&
                        Get(j.fields, "required") == Some(Bool(r.value.required)) &&
                        Get(j.fields, "showOnExcel") == Some(Bool(r.value.showOnExcel))
  {
    match j
    case Obj(o) =>
      var name :- RequiredString(Get(o, "name"));
      var required :- RequiredBool(Get(o, "required"));
      var showOnExcel :- RequiredBool(Get(o, "showOnExcel"));
      Some(TemplateVariable(name, required, showOnExcel))
    case _ => None
  }

  /** `documentSchema`: what an object must hold to be accepted. */
  predicate DocumentShape(o: Fields) {
    && RequiredString(Get(o, "id")).Some?
    && RequiredString(Get(o, "name")).Some?
    && RequiredString(Get(o, "filePath")).Some?
    && RequiredString(Get(o, "uploadedAt")).Some?
    && OptionalString(Get(o, "signedDate")).Some?
    && RequiredRecord(Get(o, "data")).Some?
  }

  /** An accepted document carries the strings and the record it was sent
      with, and its `signStatus` exactly as sent; as written it never has a
      reason. */
  function ParseDocument(schema: Schema, j: Json): (r: Option<ApiDocument>)
    ensures r.Some? <==> j.Obj? && DocumentShape(j.fields)
    ensures r.Some? ==> Get(j.fields, "id") == Some(Str(r.value.id)) && Get(j.fields, "name") == Some(Str(r.value.name))
    ensures r.Some? ==> Get(j.fields, "filePath") == Some(Str(r.value.filePath))
    ensures r.Some? ==> Get(j.fields, "uploadedAt") == Some(Str(r.value.uploadedAt))
    ensures r.Some? ==> Get(j.fields, "data") == Some(Obj(r.value.data))
    ensures r.Some? ==> r.value.signStatus == Get(j.fields, "signStatus")
    ensures r.Some? && schema == AsWritten ==> r.value.rejectionReason.None?
  {
    if j.Obj? && DocumentShape(j.fields) then
      var o := j.fields;
      Some(ApiDocument(
        RequiredString(Get(o, "id")).value,
        RequiredString(Get(o, "name")).value,
        RequiredString(Get(o, "filePath")).value,
        RequiredString(Get(o, "uploadedAt")).value,
        OptionalString(Get(o, "signedDate")).value,
        Get(o, "signStatus"),
        RequiredRecord(Get(o, "data")).value,
        if schema == Corrected then LenientString(Get(o, "rejectionReason")) else None))
    else None
  }

  /** `documents: Zod.array(documentSchema).optional()`: absent, or an array
      of document objects. */
  predicate DocumentsShape(v: Option<Json>) {
    match v
    case None => true
    case Some(Arr(items)) => forall i :: 0 <= i < |items| ==> items[i].Obj? && DocumentShape(items[i].fields)
    case Some(_) => false
  }

  /** The document list of a request, decoded with either schema: accepted
      exactly when it has the documents' shape. */
  function ParseDocuments(schema: Schema, v: Option<Json>): (r: Option<Option<seq<ApiDocument>>>)
    ensures r.Some? <==> DocumentsShape(v)
    ensures r.Some? && v.None? ==> r.value.None?
    ensures r.Some? && r.value.Some? ==>
      && v.Some? && v.value.Arr? && |r.value.value| == |v.value.items|
      && forall i :: 0 <= i < |v.value.items| ==> ParseDocument(schema, v.value.items[i]) == Some(r.value.value[i])
  {
    match v
    case None => Some(None)
    case Some(Arr(items)) =>
      var parse := j => ParseDocument(schema, j);
      assert (forall i :: 0 <= i < |items| ==> parse(items[i]).Some?) <==> DocumentsShape(v) by {
        forall i | 0 <= i < |items|
          ensures parse(items[i]).Some? <==> items[i].Obj? && DocumentShape(items[i].fields)
        {
        }
      }
      var docs :- ParseEach(items, parse);
      Some(Some(docs))
    case Some(_) => None
  }

  /** `requestSchema`: what an object must hold to be accepted. */
  predicate RequestShape(o: Fields) {
    && RequiredString(Get(o, "id")).Some?
    && RequiredString(Get(o, "title")).Some?
    && OptionalString(Get(o, "url")).Some?
    && RequiredNumber(Get(o, "documentCount")).Some?
    && RequiredNumber(Get(o, "rejectedCount")).Some?
    && RequiredString(Get(o, "createdAt")).Some?
    && OptionalNumber(Get(o, "status")).Some?
    && OptionalArray(Get(o, "templateVariables"), ParseTemplateVariable).Some?
    && DocumentsShape(Get(o, "documents"))
  }

  /** `requestSchema`, including the `status` transform. */
  function ParseRequestWith(schema: Schema, j: Json): (r: Option<ApiRequest>)
    ensures r.Some? <==> j.Obj? && RequestShape(j.fields)
    ensures r.Some? ==> Get(j.fields, "id") == Some(Str(r.value.id)) && Get(j.fields, "title") == Some(Str(r.value.title))
    ensures r.Some? ==> Get(j.fields, "createdAt") == Some(Str(r.value.createdAt))
    ensures r.Some? && schema == AsWritten ==> r.value.createdBy.None? && r.value.rejectionReason.None?
    ensures r.Some? ==> Some(r.value.url) == OptionalString(Get(j.fields, "url"))
    ensures r.Some? ==> Some(r.value.templateVariables) == OptionalArray(Get(j.fields, "templateVariables"), ParseTemplateVariable)
    ensures r.Some? ==> Some(r.value.documents) == ParseDocuments(schema, Get(j.fields, "documents"))
  {
    if j.Obj? && RequestShape(j.fields) then
      var o := j.fields;
      Some(ApiRequest(
        RequiredString(Get(o, "id")).value,
        RequiredString(Get(o, "title")).value,
        OptionalString(Get(o, "url")).value,
        RequiredNumber(Get(o, "documentCount")).value,
        RequiredNumber(Get(o, "rejectedCount")).value,
        RequiredString(Get(o, "createdAt")).value,
        DecodeStatus(OptionalNumber(Get(o, "status")).value),
        OptionalArray(Get(o, "templateVariables"), ParseTemplateVariable).value,
        ParseDocuments(schema, Get(o, "documents")).value,
        if schema == Corrected then LenientString(Get(o, "createdBy")) else None,
        if schema == Corrected then LenientString(Get(o, "rejectionReason")) else None))
    else None
  }

  /** The request decoder the rest of the model uses. */
  function ParseRequest(j: Json): Option<ApiRequest> {
    ParseRequestWith(Corrected, j)
  }

  /** `officerSchema`. */
  function ParseOfficer(j: Json): (r: Option<Officer>)
    ensures r.Some? <==> j.Obj? && RequiredString(Get(j.fields, "id")).Some? && RequiredString(Get(j.fields, "name")).Some?
    ensures r.Some? ==> Get(j.fields, "id") == Some(Str(r.value.id)) && Get(j.fields, "name") == Some(Str(r.value.name))
  {
    match j
    case Obj(o) =>
      var id :- RequiredString(Get(o, "id"));
      var name :- RequiredString(Get(o, "name"));
      Some(Officer.Officer(id, name))
    case _ => None
  }

  /** The body (`res?.data`) of a single-request response. */
  function RequestBody(body: Option<Json>): (r: Option<ApiRequest>)
    ensures r.Some? <==> body.Some? && body.value.Obj? && RequestShape(body.value.fields)
  {
    if body.Some? then ParseRequest(body.value) else None
  }

  /** The body of a request-list response. */
  function RequestListBody(body: Option<Json>): (r: Option<seq<ApiRequest>>)
    ensures r.Some? <==> body.Some? && body.value.Arr? &&
                         forall i :: 0 <= i < |body.value.items| ==> ParseRequest(body.value.items[i]).Some?
    ensures r.Some? ==> |r.value| == |body.value.items| &&
                        forall i :: 0 <= i < |r.value| ==> ParseRequest(body.value.items[i]) == Some(r.value[i])
  {
    match body
    case Some(Arr(items)) => ParseEach(items, ParseRequest)
    case _ => None
  }

  /** The body of an officer-list response. */
  function OfficerListBody(body: Option<Json>): (r: Option<seq<Officer>>)
    ensures r.Some? <==> body.Some? && body.value.Arr? &&
                         forall i :: 0 <= i < |body.value.items| ==> ParseOfficer(body.value.items[i]).Some?
    ensures r.Some? ==> |r.value| == |body.value.items| &&
                        forall i :: 0 <= i < |r.value| ==> ParseOfficer(body.value.items[i]) == Some(r.value[i])
  {
    match body
    case Some(Arr(items)) => ParseEach(items, ParseOfficer)
    case _ => None
  }

  /** Every client method: a transport error is rethrown unchanged; a body
      that fails its schema is rejected with "Invalid data from backend" and
      nothing is returned; otherwise the parsed body is returned. */
  function Receive<T>(response: Result<Option<Json>, string>, parse: Option<Json> -> Option<T>): (r: Result<T, string>)
    ensures response.Failure? ==> r == Failure(response.error)
    ensures response.Success? && parse(response.value).None? ==> r == Failure(InvalidData)
    ensures response.Success? && parse(response.value).Some? ==> r == Success(parse(response.value).value)
  {
    match response
    case Failure(e) => Failure(e)
    case Success(body) =>
      match parse(body)
      case None => Failure(InvalidData)
      case Some(v) => Success(v)
  }

  /** A request record is accepted only with numeric `documentCount` and
      `rejectedCount`, which it then carries. */
  lemma ParsedRequestHasCounts(schema: Schema, j: Json)
    requires ParseRequestWith(schema, j).Some?
    ensures j.Obj?
    ensures Get(j.fields, "documentCount") == Some(Num(ParseRequestWith(schema, j).value.documentCount))
    ensures Get(j.fields, "rejectedCount") == Some(Num(ParseRequestWith(schema, j).value.rejectedCount))
  {
  }

  /** The request's `status` is the decoded numeric status. */
  lemma ParsedRequestStatus(schema: Schema, j: Json)
    requires ParseRequestWith(schema, j).Some?
    ensures j.Obj?
    ensures Get(j.fields, "status").None? ==> ParseRequestWith(schema, j).value.status == Some("Unsigned")
    ensures forall n :: Get(j.fields, "status") == Some(Num(n)) ==>
              ParseRequestWith(schema, j).value.status == Label(n)
  {
    var r := ParseRequestWith(schema, j).value;
    var status := Get(j.fields, "status");
    assert r.status == DecodeStatus(OptionalNumber(status).value);
    forall n | status == Some(Num(n))
      ensures r.status == Label(n)
    {
      assert OptionalNumber(status) == Some(Some(n));
    }
  }

  /** A document's `signStatus` is not checked: an object that agrees with an
      accepted one on every key the schema declares is accepted too, whatever
      its `signStatus` holds (or if it holds nothing), and carries that value. */
  lemma DocumentStatusUnchecked(schema: Schema, o: Fields, o': Fields)
    requires ParseDocument(schema, Obj(o)).Some?
    requires Get(o', "id") == Get(o, "id")
    requires Get(o', "name") == Get(o, "name")
    requires Get(o', "filePath") == Get(o, "filePath")
    requires Get(o', "uploadedAt") == Get(o, "uploadedAt")
    requires Get(o', "signedDate") == Get(o, "signedDate")
    requires Get(o', "data") == Get(o, "data")
    requires Get(o', "rejectionReason") == Get(o, "rejectionReason")
    ensures ParseDocument(schema, Obj(o'))
         == Some(ParseDocument(schema, Obj(o)).value.(signStatus := Get(o', "signStatus")))
  {
  }

  /** As written, the decoder drops the owner and both rejection reasons: a
      decoded request never carries them, whatever the backend sent. */
  lemma AsWrittenDropsOwnerAndReasons(j: Json)
    requires ParseRequestWith(AsWritten, j).Some?
    ensures ParseRequestWith(AsWritten, j).value.createdBy.None?
    ensures ParseRequestWith(AsWritten, j).value.rejectionReason.None?
    ensures var docs := ParseRequestWith(AsWritten, j).value.documents;
            docs.Some? ==> forall d :: d in docs.value ==> d.rejectionReason.None?
  {
    AsWrittenDocumentsHaveNoReason(Get(j.fields, "documents"));
  }

  lemma AsWrittenDocumentsHaveNoReason(v: Option<Json>)
    requires ParseDocuments(AsWritten, v).Some?
    ensures var docs := ParseDocuments(AsWritten, v).value;
            docs.Some? ==> forall d :: d in docs.value ==> d.rejectionReason.None?
  {
    var docs := ParseDocuments(AsWritten, v).value;
    if docs.Some? {
      var items := v.value.items;
      forall d | d in docs.value
        ensures d.rejectionReason.None?
      {
        var i :| 0 <= i < |docs.value| && docs.value[i] == d;
        assert ParseDocument(AsWritten, items[i]) == Some(d);
      }
    }
  }

  /** Reading the owner and the reasons changes nothing about acceptance: the
      corrected decoder accepts a request, or a document, exactly when the
      decoder as written does, and then agrees with it on every other field. */
  lemma SchemasAcceptAlike(j: Json)
    ensures ParseRequest(j).Some? <==> ParseRequestWith(AsWritten, j).Some?
    ensures ParseDocument(Corrected, j).Some? <==> ParseDocument(AsWritten, j).Some?
    ensures ParseRequest(j).Some? ==>
              (ParseRequest(j).value.(createdBy := None, rejectionReason := None, documents := None)
               == ParseRequestWith(AsWritten, j).value.(documents := None))
    ensures ParseDocument(Corrected, j).Some? ==>
              ParseDocument(Corrected, j).value.(rejectionReason := None) == ParseDocument(AsWritten, j).value
  {
  }

  /** A `null` reason, which the schema as written strips, does not make the
      corrected decoder refuse the body; it reads as no reason. */
  lemma CorrectedToleratesNullReason(o: Fields)
    requires RequestShape(o) && Get(o, "rejectionReason") == Some(Null)
    ensures ParseRequest(Obj(o)).Some? && ParseRequestWith(AsWritten, Obj(o)).Some?
    ensures ParseRequest(Obj(o)).value.rejectionReason.None?
  {
  }

  /** The corrected decoder keeps the owner and the reason the backend sent. */
  lemma CorrectedKeepsOwnerAndReason(j: Json, owner: string, reason: string)
    requires j.Obj? && ParseRequest(j).Some?
    ensures Get(j.fields, "createdBy") == Some(Str(owner)) ==> ParseRequest(j).value.createdBy == Some(owner)
    ensures Get(j.fields, "rejectionReason") == Some(Str(reason)) ==>
              ParseRequest(j).value.rejectionReason == Some(reason)
  {
  }

  /** With the corrected schema a document keeps the reason it was sent with. */
  lemma CorrectedDocumentKeepsReason(j: Json, reason: string)
    requires j.Obj? && ParseDocument(Corrected, j).Some?
    requires Get(j.fields, "rejectionReason") == Some(Str(reason))
    ensures ParseDocument(Corrected, j).value.rejectionReason == Some(reason)
  {
  }
}
