/** The document-data page (src/pages/DocumentData.tsx): the spreadsheet
    fields of one document, without the signature image and the QR code. */
module DocumentData {
  import opened Wrappers
  import opened Seqs
  import opened JsValues

  datatype DocumentInfo = DocumentInfo(
    documentId: string,
    templateName: string,
    description: Option<string>,
    data: Fields,
    signedDate: Option<string>)

  /** The two keys the page never lists. */
  predicate Hidden(key: string) {
    key == "Signature" || key == "qrCode"
  }

  /** `Object.fromEntries(Object.entries(data).filter(([key]) => ...))`. */
  function FilteredData(data: Fields): (r: Fields)
    ensures forall k :: Get(r, k) == if Hidden(k) then None else Get(data, k)
    ensures Keys(r) == Filter(Keys(data), (k: string) => !Hidden(k))
  {
    if data == [] then []
    else
      var rest := FilteredData(data[1..]);
      assert Keys(data)[1..] == Keys(data[1..]);
      if Hidden(data[0].0) then rest
      else
        var r := [data[0]] + rest;
        assert r[1..] == rest;
        assert Keys(r) == [data[0].0] + Keys(rest);
        r
  }

  /** Filtering twice is filtering once. */
  lemma FilteredDataIdempotent(data: Fields)
    ensures FilteredData(FilteredData(data)) == FilteredData(data)
  {
    var once := FilteredData(data);
    FilterKeepsEntries(data);
    FilterNoHidden(once);
  }

  lemma {:induction false} FilterKeepsEntries(data: Fields)
    ensures forall e :: e in FilteredData(data) ==> e in data && !Hidden(e.0)
  {
    if data != [] {
      FilterKeepsEntries(data[1..]);
    }
  }

  lemma {:induction false} FilterNoHidden(data: Fields)
    requires forall e :: e in data ==> !Hidden(e.0)
    ensures FilteredData(data) == data
  {
    if data != [] {
      assert data[0] in data;
      FilterNoHidden(data[1..]);
    }
  }

  /** `documentData.description || 'N/A'`. */
  function DescriptionText(description: Option<string>): (text: string)
    ensures text != ""
    ensures description.Some? && description.value != "" ==> text == description.value
    ensures description.None? || description.value == "" ==> text == "N/A"
  {
    if description.Some? && description.value != "" then description.value else "N/A"
  }

  /** One listed item: a falsy value is shown as 'N/A'. */
  function Shown(e: (string, Json)): (string, Json) {
    (e.0, OrElse(Some(e.1), Str("N/A")))
  }

  /** The listed items: the filtered entries in order, a falsy value shown as
      'N/A', a truthy one as it is. */
  function DisplayedEntries(data: Fields): (items: seq<(string, Json)>)
    ensures Keys(items) == Keys(FilteredData(data))
    ensures forall i :: 0 <= i < |items| ==> Truthy(items[i].1)
    ensures forall k :: Get(items, k).Some? <==> !Hidden(k) && Get(data, k).Some?
    ensures forall k :: !Hidden(k) && Get(data, k).Some? && Truthy(Get(data, k).value) ==> Get(items, k) == Get(data, k)
  {
    var filtered := FilteredData(data);
    var items := Map(filtered, Shown);
    DisplayedGet(filtered);
    forall i | 0 <= i < |items|
      ensures Truthy(items[i].1)
    {
      assert items[i] == Shown(filtered[i]);
    }
    forall k
      ensures Get(items, k).Some? <==> !Hidden(k) && Get(data, k).Some?
      ensures !Hidden(k) && Get(data, k).Some? && Truthy(Get(data, k).value) ==> Get(items, k) == Get(data, k)
    {
      assert Get(filtered, k) == if Hidden(k) then None else Get(data, k);
    }
    items
  }

  lemma {:induction false} DisplayedGet(f: Fields)
    ensures Keys(Map(f, Shown)) == Keys(f)
    ensures forall k :: Get(Map(f, Shown), k) == if Get(f, k).Some? then Some(OrElse(Get(f, k), Str("N/A"))) else None
  {
    if f != [] {
      DisplayedGet(f[1..]);
      assert Map(f, Shown)[1..] == Map(f[1..], Shown);
    }
  }
}
