/** The page of one request (src/pages/Request.tsx): the request as the page
    keeps it, the spreadsheet rows turned into document entries on upload,
    the header row of the template download, and the document table. */
module RequestPage {
  import opened Wrappers
  import opened Seqs
  import opened JsValues
  import opened Constants
  import opened RequestClient

  // ---------------------------------------------------------------------
  // fetchRequest

  /** A document after the page's normalisation: its status is always
      defined. */
  datatype PageDocument = PageDocument(
    id: string,
    name: string,
    filePath: string,
    uploadedAt: string,
    signedDate: Option<string>,
    signStatus: Json,
    data: Fields)

  datatype PageRequest = PageRequest(
    id: string,
    title: string,
    documentCount: int,
    status: Option<string>,
    documents: seq<PageDocument>,
    templateVariables: seq<TemplateVariable>)

  /** `{...doc, signStatus: doc.signStatus || unsigned, data: doc.data || {}}`:
      a missing or falsy status becomes Unsigned, a truthy one is kept; the
      decoded `data` is always an object, so it is kept. */
  function NormalizeDocument(d: ApiDocument): (p: PageDocument)
    ensures d.signStatus.None? ==> p.signStatus == Num(Unsigned)
    ensures d.signStatus.Some? && Truthy(d.signStatus.value) ==> p.signStatus == d.signStatus.value
    ensures d.signStatus.Some? && !Truthy(d.signStatus.value) ==> p.signStatus == Num(Unsigned)
    ensures p.data == d.data && p.id == d.id && p.signedDate == d.signedDate
    ensures p.name == d.name && p.filePath == d.filePath && p.uploadedAt == d.uploadedAt
  {
    PageDocument(d.id, d.name, d.filePath, d.uploadedAt, d.signedDate,
                 OrElse(d.signStatus, Num(Unsigned)), OrElse(Some(Obj(d.data)), Obj([])).fields)
  }

  /** A document status the page can hold: a truthy value, or Unsigned. */
  predicate NormalStatus(s: Json) {
    Truthy(s) || s == Num(Unsigned)
  }

  /** Missing document and variable lists become empty ones. */
  function NormalizeRequest(r: ApiRequest): (p: PageRequest)
    ensures p.documents == Map(r.documents.GetOr([]), NormalizeDocument)
    ensures p.templateVariables == r.templateVariables.GetOr([])
    ensures p.id == r.id && p.title == r.title && p.status == r.status
    ensures p.documentCount == r.documentCount
  {
    PageRequest(r.id, r.title, r.documentCount, r.status,
                Map(r.documents.GetOr([]), NormalizeDocument), r.templateVariables.GetOr([]))
  }

  /** Every document of a normalised request has a status the page can
      hold, and as many documents as were received. */
  lemma NormalizedStatuses(r: ApiRequest)
    ensures |NormalizeRequest(r).documents| == if r.documents.Some? then |r.documents.value| else 0
    ensures forall d :: d in NormalizeRequest(r).documents ==> NormalStatus(d.signStatus)
  {
  }

  /** The page state: the request shown, once fetched. */
  class RequestView {
    /** The request id from the route; empty when the route has none. */
    const id: string
    var request: Option<PageRequest>

    ghost predicate Valid()
      reads this
    {
      request.Some? ==> forall d :: d in request.value.documents ==> NormalStatus(d.signStatus)
    }

    constructor (id: string)
      ensures Valid()
      ensures this.id == id && request == None
    {
      this.id := id;
      request := None;
    }

    /** `fetchRequest`: nothing happens without an id; a successful fetch
        replaces the request with its normalised form; a failed one leaves
        the page as it was. */
    method LoadRequest(response: Result<Option<Json>, string>)
      requires Valid()
      modifies this`request
      ensures Valid()
      ensures var data := Receive(response, RequestBody);
              id != "" && data.Success? ==> request == Some(NormalizeRequest(data.value))
      ensures id == "" || Receive(response, RequestBody).Failure? ==> request == old(request)
    {
      if id != "" {
        var data := Receive(response, RequestBody);
        if data.Success? {
          NormalizedStatuses(data.value);
          request := Some(NormalizeRequest(data.value));
        }
      }
    }
  }

  // ---------------------------------------------------------------------
  // handleUpload

  /** The first sheet of an uploaded file as `sheet_to_json(sheet, {header: 1})`
      returns it: the header row, then the data rows; a missing cell is
      `None`. */
  datatype Sheet = Sheet(name: string, header: seq<string>, body: seq<seq<Option<Json>>>)

  /** What the page sends for one data row (the fresh id and timestamp are
      not modelled). */
  datatype DataEntry = DataEntry(url: string, data: Fields, signStatus: int)

  /** `row[index] || ''`. */
  function Cell(row: seq<Option<Json>>, i: nat): (v: Json)
    ensures i < |row| && row[i].Some? && Truthy(row[i].value) ==> v == row[i].value
    ensures !(i < |row| && row[i].Some? && Truthy(row[i].value)) ==> v == Str("")
  {
    OrElse(if i < |row| then row[i] else None, Str(""))
  }

  /** Position of the last occurrence of `x` in `s`. */
  function LastIndex<T(==)>(s: seq<T>, x: T): (i: nat)
    requires x in s
    ensures i < |s| && s[i] == x
    ensures forall j :: i < j < |s| ==> s[j] != x
  {
    if s[|s| - 1] == x then |s| - 1 else LastIndex(s[..|s| - 1], x)
  }

  /** The record built for one row: one key per distinct header, in order of
      first appearance, holding the cell under the last column with that
      header (a later column overwrites an earlier one of the same name). */
  function RowData(header: seq<string>, row: seq<Option<Json>>): (r: Fields)
    ensures Keys(r) == Dedup(header)
    ensures forall k :: k !in header ==> Get(r, k) == None
    ensures forall k :: k in header ==> Get(r, k) == Some(Cell(row, LastIndex(header, k)))
  {
    if header == [] then []
    else
      var init := header[..|header| - 1];
      var prev := RowData(init, row);
      RowDataSnoc(header, row, prev);
      Put(prev, header[|header| - 1], Cell(row, |header| - 1))
  }

  /** The last header written over the record of the others. */
  lemma RowDataSnoc(header: seq<string>, row: seq<Option<Json>>, prev: Fields)
    requires header != []
    requires var init := header[..|header| - 1];
             && Keys(prev) == Dedup(init)
             && (forall k :: k !in init ==> Get(prev, k) == None)
             && (forall k :: k in init ==> Get(prev, k) == Some(Cell(row, LastIndex(init, k))))
    ensures var r := Put(prev, header[|header| - 1], Cell(row, |header| - 1));
            && Keys(r) == Dedup(header)
            && (forall k :: k !in header ==> Get(r, k) == None)
            && (forall k :: k in header ==> Get(r, k) == Some(Cell(row, LastIndex(header, k))))
  {
    var init := header[..|header| - 1];
    var last := header[|header| - 1];
    assert header == init + [last];
    DedupSnoc(init, last);
    var r := Put(prev, last, Cell(row, |header| - 1));
    forall k | k in header
      ensures Get(r, k) == Some(Cell(row, LastIndex(header, k)))
    {
      if k != last {
        assert k in init;
        assert LastIndex(header, k) == LastIndex(init, k);
      }
    }
  }

  function SheetEntries(f: Sheet): seq<DataEntry> {
    Map(f.body, (row: seq<Option<Json>>) => DataEntry(f.name, RowData(f.header, row), Unsigned))
  }

  /** The entries of all files, file after file, row after row. */
  function AllEntries(files: seq<Sheet>): seq<DataEntry> {
    if files == [] then [] else AllEntries(files[..|files| - 1]) + SheetEntries(files[|files| - 1])
  }

  function RowCount(files: seq<Sheet>): nat {
    if files == [] then 0 else RowCount(files[..|files| - 1]) + |files[|files| - 1].body|
  }

  /** One entry per data row: the header row yields none, every other row
      exactly one, all Unsigned and named after their file. */
  lemma {:induction false} AllEntriesShape(files: seq<Sheet>)
    ensures |AllEntries(files)| == RowCount(files)
    ensures forall e :: e in AllEntries(files) ==> e.signStatus == Unsigned
    ensures forall e :: e in AllEntries(files) ==> exists f :: f in files && e.url == f.name
  {
    if files != [] {
      var init := files[..|files| - 1];
      var last := files[|files| - 1];
      AllEntriesShape(init);
      forall e | e in AllEntries(files)
        ensures e.signStatus == Unsigned
        ensures exists f :: f in files && e.url == f.name
      {
        if e in AllEntries(init) {
          var f :| f in init && e.url == f.name;
          assert f in files;
        } else {
          assert e in SheetEntries(last);
          assert last in files;
        }
      }
    }
  }

  /** A file yields one Unsigned entry per data row, in row order, each named
      after that file and holding that row's data. */
  lemma SheetEntriesShape(f: Sheet)
    ensures |SheetEntries(f)| == |f.body|
    ensures forall i :: 0 <= i < |f.body| ==>
              SheetEntries(f)[i] == DataEntry(f.name, RowData(f.header, f.body[i]), Unsigned)
  {
  }

  /** Reading two batches of files yields the first batch's entries followed
      by the second's. */
  lemma {:induction false} AllEntriesAppend(a: seq<Sheet>, b: seq<Sheet>)
    ensures AllEntries(a + b) == AllEntries(a) + AllEntries(b)
  {
    if b == [] {
      assert a + b == a;
    } else {
      var init, last := b[..|b| - 1], b[|b| - 1];
      assert AllEntries(a + b) == AllEntries(a + init) + SheetEntries(last) by {
        var ab := a + b;
        assert ab[..|ab| - 1] == a + init;
        assert ab[|ab| - 1] == last;
      }
      assert AllEntries(b) == AllEntries(init) + SheetEntries(last);
      AllEntriesAppend(a, init);
      AppendAssoc(AllEntries(a), AllEntries(init), SheetEntries(last));
    }
  }

  /** The entries of file k form one block, after those of the files before it
      and before those of the files after it: every entry is named after the
      file whose row it came from. */
  lemma FileEntriesInPlace(files: seq<Sheet>, k: nat)
    requires k < |files|
    ensures AllEntries(files) == AllEntries(files[..k]) + SheetEntries(files[k]) + AllEntries(files[k + 1..])
  {
    var before, file, after := files[..k], files[k], files[k + 1..];
    SplitAt(files, k);
    AllEntriesAppend(before + [file], after);
    AllEntriesAppend(before, [file]);
    assert AllEntries([file]) == SheetEntries(file) by {
      assert [file][..0] == [];
      assert [] + SheetEntries(file) == SheetEntries(file);
    }
  }

  /** `headers.forEach((header, index) => rowData[header] = row[index] || '')`. */
  method FillRow(header: seq<string>, row: seq<Option<Json>>) returns (rowData: Fields)
    ensures rowData == RowData(header, row)
  {
    rowData := [];
    var h := 0;
    assert header[..h] == [];
    while h < |header|
      invariant 0 <= h <= |header|
      invariant rowData == RowData(header[..h], row)
    {
      var key, cell := header[h], Cell(row, h);
      RowDataStep(header, row, h);
      rowData := Put(rowData, key, cell);
      h := h + 1;
    }
    assert header[..h] == header;
  }

  lemma RowDataStep(header: seq<string>, row: seq<Option<Json>>, h: nat)
    requires h < |header|
    ensures RowData(header[..h + 1], row) == Put(RowData(header[..h], row), header[h], Cell(row, h))
  {
    var p := header[..h + 1];
    assert p[..|p| - 1] == header[..h];
  }

  /** `rows.forEach(row => dataEntries.push(...))` for one file. */
  method PushSheet(entries: seq<DataEntry>, file: Sheet) returns (out: seq<DataEntry>)
    ensures out == entries + SheetEntries(file)
  {
    out := entries;
    var r := 0;
    var toEntry := (row: seq<Option<Json>>) => DataEntry(file.name, RowData(file.header, row), Unsigned);
    while r < |file.body|
      invariant 0 <= r <= |file.body|
      invariant out == entries + Map(file.body[..r], toEntry)
    {
      var rowData := FillRow(file.header, file.body[r]);
      MapSnoc(file.body, r, toEntry);
      out := out + [DataEntry(file.name, rowData, Unsigned)];
      r := r + 1;
    }
    assert file.body[..r] == file.body;
  }

  /** The loops of `handleUpload`: for each file, for each data row, the row
      record is filled header by header and the entry pushed. */
  method BuildDataEntries(files: seq<Sheet>) returns (entries: seq<DataEntry>)
    ensures entries == AllEntries(files)
  {
    entries := [];
    var f := 0;
    while f < |files|
      invariant 0 <= f <= |files|
      invariant entries == AllEntries(files[..f])
    {
      entries := PushSheet(entries, files[f]);
      assert files[..f + 1][..f] == files[..f];
      f := f + 1;
    }
    assert files[..f] == files;
  }

  // ---------------------------------------------------------------------
  // handleDownloadTemplate

  predicate ShownOnExcel(v: TemplateVariable) {
    v.showOnExcel
  }

  /** The names of the variables marked for the spreadsheet, in declaration
      order: the i-th name is that of the i-th marked variable. */
  function ExcelNames(vars: seq<TemplateVariable>): (names: seq<string>)
    ensures |names| == |Filter(vars, ShownOnExcel)|
    ensures forall i :: 0 <= i < |names| ==> names[i] == Filter(vars, ShownOnExcel)[i].name
    ensures forall n :: n in names <==> exists v :: v in vars && v.showOnExcel && v.name == n
  {
    var shown := Filter(vars, ShownOnExcel);
    var names := Map(shown, (v: TemplateVariable) => v.name);
    forall n | n in names
      ensures exists v :: v in vars && v.showOnExcel && v.name == n
    {
      var i :| 0 <= i < |names| && names[i] == n;
      assert shown[i] in shown;
    }
    forall n | exists v :: v in vars && v.showOnExcel && v.name == n
      ensures n in names
    {
      var v :| v in vars && v.showOnExcel && v.name == n;
      var i :| 0 <= i < |shown| && shown[i] == v;
      assert names[i] == n;
    }
    names
  }

  /** One step of `ExcelNames`: a first variable, when marked, gives the
      first name. */
  lemma ExcelNamesCons(v: TemplateVariable, vars: seq<TemplateVariable>)
    ensures ExcelNames([v] + vars) == (if v.showOnExcel then [v.name] else []) + ExcelNames(vars)
  {
    var all := [v] + vars;
    assert all[1..] == vars;
    FilterCons(all, ShownOnExcel);
    var names, rest := ExcelNames(all), ExcelNames(vars);
    var shown, tail := Filter(all, ShownOnExcel), Filter(vars, ShownOnExcel);
    var head := if v.showOnExcel then [v.name] else [];
    forall i | 0 <= i < |names|
      ensures names[i] == (head + rest)[i]
    {
      if i >= |head| {
        assert shown[i] == tail[i - |head|];
      }
    }
  }

  /** The names keep the order of their declarations: a variable declared
      first contributes its name (when marked) before all the others, and the
      names are a subsequence of all the declared names. */
  lemma ExcelNamesInOrder(v: TemplateVariable, vars: seq<TemplateVariable>)
    ensures ExcelNames([]) == []
    ensures ExcelNames([v] + vars) == (if v.showOnExcel then [v.name] else []) + ExcelNames(vars)
    ensures IsSubsequence(ExcelNames(vars), Map(vars, (u: TemplateVariable) => u.name))
  {
    ExcelNamesCons(v, vars);
    var tail := Filter(vars, ShownOnExcel);
    SubsequenceMap(tail, vars, (u: TemplateVariable) => u.name);
    assert ExcelNames(vars) == Map(tail, (u: TemplateVariable) => u.name);
  }

  const NoTemplateVariables := "No template variables available"
  const NoExcelVariables := "No variables to include in Excel template"

  /** The header row of the template, or the error shown instead of a
      download. */
  function TemplateHeaders(request: Option<PageRequest>): (r: Result<seq<string>, string>)
    ensures request.None? ==> r == Failure(NoTemplateVariables)
    ensures request.Some? ==>
              (r.Failure? <==> forall v :: v in request.value.templateVariables ==> !v.showOnExcel)
    ensures request.Some? && r.Failure? ==> r.error == NoExcelVariables
    ensures r.Success? ==> r.value != [] && r.value == ExcelNames(request.value.templateVariables)
  {
    if request.None? then Failure(NoTemplateVariables)
    else
      var names := ExcelNames(request.value.templateVariables);
      if names == [] then
        Failure(NoExcelVariables)
      else
        assert names[0] in names;
        Success(names)
  }

  // ---------------------------------------------------------------------
  // getColumns

  datatype Column = DataColumn(field: string) | SignDateColumn | StatusColumn | ActionsColumn

  /** Every data key of every document, document by document. */
  function DataKeys(docs: seq<PageDocument>): seq<string> {
    if docs == [] then [] else DataKeys(docs[..|docs| - 1]) + Keys(docs[|docs| - 1].data)
  }

  lemma {:induction false} DataKeysMembers(docs: seq<PageDocument>, k: string)
    ensures k in DataKeys(docs) <==> exists d :: d in docs && k in Keys(d.data)
  {
    if docs != [] {
      var init := docs[..|docs| - 1];
      DataKeysMembers(init, k);
      if k in DataKeys(init) {
        var d :| d in init && k in Keys(d.data);
        assert d in docs;
      }
      if d :| d in docs && k in Keys(d.data) {
        if d != docs[|docs| - 1] {
          var i :| 0 <= i < |docs| && docs[i] == d;
          assert d == init[i];
        }
      }
    }
  }

  lemma DataKeysStep(docs: seq<PageDocument>, i: nat)
    requires i < |docs|
    ensures DataKeys(docs[..i + 1]) == DataKeys(docs[..i]) + Keys(docs[i].data)
  {
    assert docs[..i + 1][..i] == docs[..i];
  }

  /** One more key added to the Set. */
  lemma AddKeyStep(seen: seq<string>, keys: seq<string>, j: nat)
    requires j < |keys|
    ensures var d := Dedup(seen + keys[..j]);
            Dedup(seen + keys[..j + 1]) == if keys[j] in d then d else d + [keys[j]]
  {
    assert seen + keys[..j + 1] == (seen + keys[..j]) + [keys[j]];
    DedupSnoc(seen + keys[..j], keys[j]);
  }

  /** `Object.keys(doc.data).forEach(field => excelFields.add(field))`. */
  method AddKeys(fields: seq<string>, ghost seen: seq<string>, keys: seq<string>) returns (out: seq<string>)
    requires fields == Dedup(seen)
    ensures out == Dedup(seen + keys)
  {
    out := fields;
    var j := 0;
    assert seen + keys[..0] == seen;
    while j < |keys|
      invariant 0 <= j <= |keys|
      invariant out == Dedup(seen + keys[..j])
    {
      AddKeyStep(seen, keys, j);
      if keys[j] !in out {
        out := out + [keys[j]];
      }
      j := j + 1;
    }
    assert keys[..j] == keys;
  }

  /** `getColumns`: the keys are gathered into a Set, document by document,
      then the fixed columns follow. */
  method GetColumns(docs: seq<PageDocument>) returns (cols: seq<Column>)
    ensures cols == Map(Dedup(DataKeys(docs)), (f: string) => DataColumn(f)) + [SignDateColumn, StatusColumn, ActionsColumn]
  {
    var fields: seq<string> := [];
    var i := 0;
    while i < |docs|
      invariant 0 <= i <= |docs|
      invariant fields == Dedup(DataKeys(docs[..i]))
    {
      fields := AddKeys(fields, DataKeys(docs[..i]), Keys(docs[i].data));
      DataKeysStep(docs, i);
      i := i + 1;
    }
    assert docs[..i] == docs;
    cols := Map(fields, (f: string) => DataColumn(f)) + [SignDateColumn, StatusColumn, ActionsColumn];
  }

  /** The data columns: one per key used by some document, each once, in the
      order the keys were first met. */
  lemma DataColumnsMeaning(docs: seq<PageDocument>, k: string)
    ensures k in Dedup(DataKeys(docs)) <==> exists d :: d in docs && k in Keys(d.data)
    ensures Distinct(Dedup(DataKeys(docs)))
  {
    DataKeysMembers(docs, k);
  }

  // ---------------------------------------------------------------------
  // The status and action columns

  /** `statusMap[status] || 'Unknown'`: only Unsigned, Signed and Delegated
      have a label on this page. */
  function DocStatusLabel(status: Json): (name: string)
    ensures name != "Unknown" <==> status in {Num(Unsigned), Num(Signed), Num(Delegated)}
    ensures name != "Unknown" ==> Label(status.n) == Some(name)
  {
    if status == Num(Unsigned) then "Unsigned"
    else if status == Num(Signed) then "Signed"
    else if status == Num(Delegated) then "Delegated"
    else "Unknown"
  }

  datatype DocAction = DownloadDocument | PreviewDocument | DeleteDocument

  /** The buttons of a document row, in the order they are drawn. */
  function DocActions(status: Json): (acts: seq<DocAction>)
    ensures DownloadDocument in acts <==> status == Num(Signed)
    ensures PreviewDocument in acts <==> status == Num(Unsigned) || status == Num(Delegated)
    ensures DeleteDocument in acts <==> status == Num(Unsigned)
    ensures Distinct(acts)
  {
    (if status == Num(Signed) then [DownloadDocument] else []) +
    (if status == Num(Unsigned) || status == Num(Delegated) then [PreviewDocument] else []) +
    (if status == Num(Unsigned) then [DeleteDocument] else [])
  }

  /** A row with a button is a row with a label, and what can be deleted can
      be previewed. */
  lemma ActionsNeedLabel(status: Json)
    ensures DocActions(status) != [] ==> DocStatusLabel(status) != "Unknown"
    ensures DeleteDocument in DocActions(status) ==> PreviewDocument in DocActions(status)
  {
  }

  /** A document received without a status is shown Unsigned, and can be
      previewed and deleted. */
  lemma MissingStatusIsUnsigned(d: ApiDocument)
    requires d.signStatus.None?
    ensures DocStatusLabel(NormalizeDocument(d).signStatus) == "Unsigned"
    ensures DocActions(NormalizeDocument(d).signStatus) == [PreviewDocument, DeleteDocument]
  {
  }
}
