/** The rejected-documents page (src/pages/RejectedDocs.tsx): the documents of
    one request that were rejected, with the reason on the status tag. */
module RejectedDocs {
  import opened Wrappers
  import opened Seqs
  import opened JsValues
  import opened Constants
  import opened RequestClient
  import opened RequestPage

  /** A row of the table. */
  datatype RejectedRow = RejectedRow(
    id: string,
    signedDate: Option<string>,
    signStatus: Option<Json>,
    data: Fields,
    rejectionReason: Option<string>)

  /** `doc.signStatus === signStatus.rejected`: strict equality, so only the
      number 2 qualifies. */
  predicate IsRejected(d: ApiDocument) {
    d.signStatus == Some(Num(Rejected))
  }

  function ToRow(d: ApiDocument): RejectedRow {
    RejectedRow(d.id, d.signedDate, d.signStatus, OrElse(Some(Obj(d.data)), Obj([])).fields, d.rejectionReason)
  }

  /** The rows of `fetchRequest`: one per rejected document, in the order
      received, each carrying its document's data and reason. */
  function RejectedRows(docs: Option<seq<ApiDocument>>): (rows: seq<RejectedRow>)
    ensures forall r :: r in rows ==> r.signStatus == Some(Num(Rejected))
    ensures forall d :: d in docs.GetOr([]) && IsRejected(d) ==> ToRow(d) in rows
    ensures forall r :: r in rows ==> exists d :: d in docs.GetOr([]) && IsRejected(d) && r == ToRow(d)
    ensures IsSubsequence(rows, Map(docs.GetOr([]), ToRow))
    ensures |rows| == |Filter(docs.GetOr([]), IsRejected)|
  {
    var all := docs.GetOr([]);
    var kept := Filter(all, IsRejected);
    var rows := Map(kept, ToRow);
    forall d | d in all && IsRejected(d)
      ensures ToRow(d) in rows
    {
      var i :| 0 <= i < |kept| && kept[i] == d;
      assert rows[i] == ToRow(d);
    }
    forall r | r in rows
      ensures exists d :: d in all && IsRejected(d) && r == ToRow(d)
    {
      var i :| 0 <= i < |rows| && rows[i] == r;
      assert kept[i] in kept;
    }
    SubsequenceMap(kept, all, ToRow);
    rows
  }

  /** The page state after `fetchRequest`. */
  datatype RejectedView = RejectedView(title: string, rows: seq<RejectedRow>, templateVariables: seq<TemplateVariable>)

  function LoadRejected(r: ApiRequest): (v: RejectedView)
    ensures v.rows == RejectedRows(r.documents)
    ensures v.templateVariables == r.templateVariables.GetOr([])
    ensures r.documents.None? ==> v.rows == []
  {
    RejectedView(r.title, RejectedRows(r.documents), r.templateVariables.GetOr([]))
  }

  /** `getColumns`: a column per spreadsheet variable, then the sign date and
      the status. */
  function Columns(vars: seq<TemplateVariable>): (cols: seq<Column>)
    ensures |cols| == |ExcelNames(vars)| + 2
    ensures cols[|cols| - 2..] == [SignDateColumn, StatusColumn]
    ensures forall i :: 0 <= i < |ExcelNames(vars)| ==> cols[i] == DataColumn(ExcelNames(vars)[i])
    ensures forall f :: DataColumn(f) in cols <==> exists v :: v in vars && v.showOnExcel && v.name == f
  {
    var names := ExcelNames(vars);
    var cols := Map(names, (f: string) => DataColumn(f)) + [SignDateColumn, StatusColumn];
    DataColumnsOf(names, cols);
    cols
  }

  /** The data columns of a column list built from `names` are those names. */
  lemma DataColumnsOf(names: seq<string>, cols: seq<Column>)
    requires |cols| == |names| + 2 && cols[|names|..] == [SignDateColumn, StatusColumn]
    requires forall i :: 0 <= i < |names| ==> cols[i] == DataColumn(names[i])
    ensures forall f :: DataColumn(f) in cols <==> f in names
  {
    forall f | DataColumn(f) in cols
      ensures f in names
    {
      var i :| 0 <= i < |cols| && cols[i] == DataColumn(f);
      assert i < |names|;
    }
    forall f | f in names
      ensures DataColumn(f) in cols
    {
      var i :| 0 <= i < |names| && names[i] == f;
      assert cols[i] == DataColumn(f);
    }
  }

  /** The tooltip of the status tag. */
  function StatusTooltip(status: Option<Json>, reason: Option<string>): (tip: string)
    ensures status != Some(Num(Rejected)) ==> tip == ""
    ensures status == Some(Num(Rejected)) && reason.Some? && reason.value != "" ==> tip == "Reason: " + reason.value
    ensures status == Some(Num(Rejected)) && (reason.None? || reason.value == "") ==> tip == "No reason provided"
  {
    if status == Some(Num(Rejected)) then
      if reason.Some? && reason.value != "" then "Reason: " + reason.value else "No reason provided"
    else ""
  }

  /** `signStatusDisplay[status] || 'Unknown'`. */
  function StatusText(status: Option<Json>): (text: string)
    ensures text != "Unknown" <==> status.Some? && status.value.Num? && IsStatusCode(status.value.n)
    ensures text != "Unknown" ==> Label(status.value.n) == Some(text)
  {
    match status
    case Some(Num(n)) =>
      var name := Label(n);
      if name.Some? then
        assert name.value in SignStatusDisplay.Values;
        name.value
      else "Unknown"
    case _ => "Unknown"
  }

  /** Every row shows "Rejected" and a tooltip that is never empty. */
  lemma RowsShowRejected(docs: Option<seq<ApiDocument>>)
    ensures forall r :: r in RejectedRows(docs) ==>
              StatusText(r.signStatus) == "Rejected" && StatusTooltip(r.signStatus, r.rejectionReason) != ""
  {
    assert Label(Rejected) == Some("Rejected");
  }

  /** As written, the decoder has dropped every reason, so each row says
      "No reason provided". */
  lemma AsWrittenReasonNeverShown(j: Json)
    requires ParseRequestWith(AsWritten, j).Some?
    ensures forall r :: r in RejectedRows(ParseRequestWith(AsWritten, j).value.documents) ==>
              StatusTooltip(r.signStatus, r.rejectionReason) == "No reason provided"
  {
    AsWrittenDropsOwnerAndReasons(j);
  }

  /** With the corrected decoder, a rejected document sent with a reason shows
      that reason. */
  lemma CorrectedReasonShown(j: Json, reason: string)
    requires j.Obj? && ParseDocument(Corrected, j).Some?
    requires Get(j.fields, "signStatus") == Some(Num(Rejected))
    requires Get(j.fields, "rejectionReason") == Some(Str(reason)) && reason != ""
    ensures var row := ToRow(ParseDocument(Corrected, j).value);
            StatusTooltip(row.signStatus, row.rejectionReason) == "Reason: " + reason
  {
    CorrectedDocumentKeepsReason(j, reason);
  }
}
