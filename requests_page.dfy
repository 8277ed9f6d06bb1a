/** The request-list page (src/pages/Requests.tsx): the client's copy of every
    request, the search filter over it, the per-request signing progress fed
    by socket events, the action menu each row offers, and the status shown. */
module RequestsPage {
  import opened Wrappers
  import opened Seqs
  import opened JsValues
  import opened Constants
  import opened RequestClient

  /** A row of the list: a decoded request plus `rawStatus`, the code
      recovered from its label (`None` is `NaN`). */
  datatype ListRequest = ListRequest(
    id: string,
    title: string,
    documentCount: int,
    rejectedCount: int,
    createdAt: string,
    status: Option<string>,
    rawStatus: Option<int>,
    createdBy: Option<string>,
    rejectionReason: Option<string>)

  datatype Progress = Progress(current: int, total: int)

  datatype Action = Clone | Send | Delete | Sign | Reject | Delegate | Print | Download | Dispatch

  datatype MenuItem = MenuItem(action: Action, disabled: bool)

  /** The position of an entry among all the entries `getActions` can push,
      in the order its branches push them. */
  function MenuRank(a: Action): nat {
    match a
    case Clone => 0
    case Send => 1
    case Delete => 2
    case Sign => 3
    case Reject => 4
    case Delegate => 5
    case Print => 6
    case Download => 7
    case Dispatch => 8
  }

  // ---------------------------------------------------------------------
  // Recovering the code from a label

  /** `Object.keys(signStatusDisplay).find(...)` from key `from` on: the keys
      are visited in ascending order, so the first matching code is found. */
  function FindCode(name: string, from: int): (r: Option<int>)
    requires Unsigned <= from
    ensures r.Some? ==> from <= r.value && IsStatusCode(r.value) && Label(r.value) == Some(name)
    ensures r.Some? ==> forall c :: from <= c < r.value ==> Label(c) != Some(name)
    ensures r.None? ==> forall c :: from <= c && IsStatusCode(c) ==> Label(c) != Some(name)
    decreases Dispatched + 1 - from
  {
    if from > Dispatched then None
    else if Label(from) == Some(name) then Some(from)
    else FindCode(name, from + 1)
  }

  /** The code whose label is `name`, or `None` when no code has it. */
  function LookupCode(name: string): (r: Option<int>)
    ensures r.Some? ==> IsStatusCode(r.value) && Label(r.value) == Some(name)
    ensures r.None? <==> forall c :: IsStatusCode(c) ==> Label(c) != Some(name)
  {
    FindCode(name, Unsigned)
  }

  /** `rawStatus` as the list computes it after a fetch: a missing or empty
      label reads as Unsigned; otherwise the code with that label, `NaN` when
      none has it. */
  function RawStatus(status: Option<string>): (raw: Option<int>)
    ensures status.None? || status == Some("") ==> raw == Some(Unsigned)
    ensures status.Some? && status.value != "" && raw.Some? ==> IsStatusCode(raw.value) && Label(raw.value) == status
    ensures status.Some? && status.value != "" && raw.None? ==> forall c :: IsStatusCode(c) ==> Label(c) != status
  {
    if status.None? || status.value == "" then Some(Unsigned) else LookupCode(status.value)
  }

  /** Reverse lookup undoes the catalog: the label of a code leads back to
      that code. */
  lemma LabelRoundTrip(code: int)
    requires IsStatusCode(code)
    ensures RawStatus(Label(code)) == Some(code)
  {
    var r := LookupCode(Label(code).value);
    if r.Some? {
      LabelsDistinct(r.value, code);
    }
  }

  /** Decoding then reverse lookup: a code in range comes back unchanged; an
      absent status comes back as Unsigned, and so does a code out of range,
      whose label is `undefined`. */
  lemma DecodeThenLookup(code: Option<int>)
    ensures RawStatus(DecodeStatus(code)) ==
            if code.Some? && IsStatusCode(code.value) then code else Some(Unsigned)
  {
    if code.Some? && IsStatusCode(code.value) {
      LabelRoundTrip(code.value);
    } else if code.None? {
      LabelRoundTrip(Unsigned);
    }
  }

  /** `rawStatus` agrees with the label shown. */
  predicate Consistent(r: ListRequest) {
    r.rawStatus == RawStatus(r.status)
  }

  // ---------------------------------------------------------------------
  // fetchRequests: newest first, then `rawStatus` attached

  predicate NewestFirst(rs: seq<ApiRequest>, timeOf: string -> int) {
    forall i, j :: 0 <= i < j < |rs| ==> timeOf(rs[i].createdAt) >= timeOf(rs[j].createdAt)
  }

  /** Insertion into a newest-first list; `x` goes before elements of equal
      time, so earlier input stays earlier (a stable sort). */
  function Insert(x: ApiRequest, s: seq<ApiRequest>, timeOf: string -> int): (r: seq<ApiRequest>)
    ensures multiset(r) == multiset(s) + multiset{x}
    ensures forall y :: y in r ==> y == x || y in s
  {
    if s == [] then [x]
    else if timeOf(s[0].createdAt) <= timeOf(x.createdAt) then [x] + s
    else
      assert s == [s[0]] + s[1..];
      [s[0]] + Insert(x, s[1..], timeOf)
  }

  /** Insertion keeps a newest-first list newest first. */
  lemma {:induction false} InsertNewestFirst(x: ApiRequest, s: seq<ApiRequest>, timeOf: string -> int)
    requires NewestFirst(s, timeOf)
    ensures NewestFirst(Insert(x, s, timeOf), timeOf)
  {
    if s == [] {
    } else if timeOf(s[0].createdAt) <= timeOf(x.createdAt) {
      PrependNewest(x, s, timeOf);
    } else {
      var tail := s[1..];
      InsertNewestFirst(x, tail, timeOf);
      var r := Insert(x, tail, timeOf);
      forall k | 0 <= k < |r|
        ensures timeOf(s[0].createdAt) >= timeOf(r[k].createdAt)
      {
        assert r[k] in r;
        if r[k] != x {
          var m :| 0 <= m < |tail| && tail[m] == r[k];
          assert s[m + 1] == r[k];
        }
      }
      PrependNewest(s[0], r, timeOf);
    }
  }

  /** A request no older than any of a newest-first list can go in front. */
  lemma PrependNewest(h: ApiRequest, r: seq<ApiRequest>, timeOf: string -> int)
    requires NewestFirst(r, timeOf)
    requires r != [] ==> timeOf(h.createdAt) >= timeOf(r[0].createdAt)
    ensures NewestFirst([h] + r, timeOf)
  {
    var res := [h] + r;
    forall i, j | 0 <= i < j < |res|
      ensures timeOf(res[i].createdAt) >= timeOf(res[j].createdAt)
    {
      if i == 0 {
        assert res[j] == r[j - 1];
        assert timeOf(r[0].createdAt) >= timeOf(r[j - 1].createdAt);
      } else {
        assert res[i] == r[i - 1] && res[j] == r[j - 1];
      }
    }
  }

  /** The comparator `b.createdAt - a.createdAt`: a permutation of `s`,
      newest first. */
  function SortNewestFirst(s: seq<ApiRequest>, timeOf: string -> int): (r: seq<ApiRequest>)
    ensures multiset(r) == multiset(s)
    ensures NewestFirst(r, timeOf)
  {
    if s == [] then []
    else
      assert s == [s[0]] + s[1..];
      InsertNewestFirst(s[0], SortNewestFirst(s[1..], timeOf), timeOf);
      Insert(s[0], SortNewestFirst(s[1..], timeOf), timeOf)
  }

  /** The mapping in `fetchRequests`: every field is carried over, and the
      kept numeric status is the code whose label the request shows. */
  function ToListRequest(a: ApiRequest): (r: ListRequest)
    ensures Consistent(r)
    ensures forall c :: IsStatusCode(c) && a.status == Label(c) ==> r.rawStatus == Some(c)
    ensures r.id == a.id && r.title == a.title && r.createdAt == a.createdAt && r.status == a.status
    ensures r.documentCount == a.documentCount && r.rejectedCount == a.rejectedCount
    ensures r.createdBy == a.createdBy && r.rejectionReason == a.rejectionReason
  {
    ListRequest(a.id, a.title, a.documentCount, a.rejectedCount, a.createdAt, a.status,
                RawStatus(a.status), a.createdBy, a.rejectionReason)
  }

  lemma {:induction false} InsertThenRows(x: ApiRequest, s: seq<ApiRequest>, timeOf: string -> int)
    ensures multiset(Map(Insert(x, s, timeOf), ToListRequest))
         == multiset(Map(s, ToListRequest)) + multiset{ToListRequest(x)}
  {
    if s != [] && timeOf(s[0].createdAt) > timeOf(x.createdAt) {
      InsertThenRows(x, s[1..], timeOf);
      var r := Insert(x, s[1..], timeOf);
      assert ([s[0]] + r)[1..] == r;
      assert Map(s, ToListRequest) == [ToListRequest(s[0])] + Map(s[1..], ToListRequest);
    } else if s != [] {
      assert ([x] + s)[1..] == s;
    }
  }

  lemma {:induction false} SortThenRows(s: seq<ApiRequest>, timeOf: string -> int)
    ensures multiset(Map(SortNewestFirst(s, timeOf), ToListRequest)) == multiset(Map(s, ToListRequest))
  {
    if s != [] {
      SortThenRows(s[1..], timeOf);
      InsertThenRows(s[0], SortNewestFirst(s[1..], timeOf), timeOf);
      assert Map(s, ToListRequest) == [ToListRequest(s[0])] + Map(s[1..], ToListRequest);
    }
  }

  /** The list after a fetch: one row per fetched request (a permutation),
      newest first, each with the `rawStatus` of its label. */
  function FetchedRows(data: seq<ApiRequest>, timeOf: string -> int): (rows: seq<ListRequest>)
    ensures |rows| == |data|
    ensures multiset(rows) == multiset(Map(data, ToListRequest))
    ensures forall i, j :: 0 <= i < j < |rows| ==> timeOf(rows[i].createdAt) >= timeOf(rows[j].createdAt)
    ensures forall r :: r in rows ==> Consistent(r)
  {
    var sorted := SortNewestFirst(data, timeOf);
    SortThenRows(data, timeOf);
    assert |multiset(sorted)| == |multiset(data)|;
    Map(sorted, ToListRequest)
  }

  // ---------------------------------------------------------------------
  // handleSearch

  function LowerChar(c: char): char {
    if 'A' <= c <= 'Z' then (c as int + 32) as char else c
  }

  /** `toLowerCase`, on ASCII letters. */
  function Lower(s: string): (r: string)
    ensures |r| == |s| && forall i :: 0 <= i < |s| ==> r[i] == LowerChar(s[i])
  {
    if s == [] then [] else [LowerChar(s[0])] + Lower(s[1..])
  }

  /** `sub` occurs in `s` starting at position `i`. */
  predicate OccursAt(s: string, sub: string, i: nat) {
    i + |sub| <= |s| && s[i..i + |sub|] == sub
  }

  /** `String.prototype.includes`: `sub` occurs somewhere in `s`. */
  function Includes(s: string, sub: string): (r: bool)
    ensures r <==> exists i: nat :: OccursAt(s, sub, i)
    decreases |s|
  {
    if |sub| > |s| then false
    else if s[..|sub|] == sub then
      assert OccursAt(s, sub, 0);
      true
    else
      var r := Includes(s[1..], sub);
      assert forall i: nat :: OccursAt(s[1..], sub, i) ==> OccursAt(s, sub, i + 1);
      assert forall i: nat :: 1 <= i && OccursAt(s, sub, i) ==> OccursAt(s[1..], sub, i - 1);
      r
  }

  predicate TitleMatches(title: string, query: string) {
    Includes(Lower(title), Lower(query))
  }

  /** The rows the search keeps: exactly those whose lower-cased title
      contains the lower-cased query, each as often as before, in order. */
  function SearchResults(rs: seq<ListRequest>, query: string): (r: seq<ListRequest>)
    ensures forall x :: x in r <==> x in rs && TitleMatches(x.title, query)
    ensures forall x :: multiset(r)[x] == if TitleMatches(x.title, query) then multiset(rs)[x] else 0
    ensures IsSubsequence(r, rs)
  {
    Filter(rs, (x: ListRequest) => TitleMatches(x.title, query))
  }

  /** An empty search keeps the whole list. */
  lemma EmptySearchKeepsAll(rs: seq<ListRequest>)
    ensures SearchResults(rs, "") == rs
  {
    forall x | x in rs
      ensures TitleMatches(x.title, "")
    {
      assert Lower(x.title)[0..0] == "";
    }
    FilterAll(rs, (x: ListRequest) => TitleMatches(x.title, ""));
  }

  // ---------------------------------------------------------------------
  // handleDeleteRequest and the status updates

  /** `prev.filter((req) => req.id !== id)`. */
  function WithoutRequest(rs: seq<ListRequest>, id: string): (r: seq<ListRequest>)
    ensures forall x :: x in r <==> x in rs && x.id != id
    ensures forall x: ListRequest :: x.id != id ==> multiset(r)[x] == multiset(rs)[x]
    ensures IsSubsequence(r, rs)
  {
    Filter(rs, (x: ListRequest) => x.id != id)
  }

  function SetStatus(r: ListRequest, code: int): ListRequest {
    r.(status := Label(code), rawStatus := Some(code))
  }

  /** `prev.map((req) => req.id === id ? {...req, status, rawStatus} : req)`. */
  function WithStatus(rs: seq<ListRequest>, id: string, code: int): (r: seq<ListRequest>)
    ensures |r| == |rs|
    ensures forall i :: 0 <= i < |rs| && rs[i].id != id ==> r[i] == rs[i]
    ensures forall i :: 0 <= i < |rs| && rs[i].id == id ==>
              r[i].rawStatus == Some(code) && r[i].status == Label(code) && r[i] == SetStatus(rs[i], code)
  {
    Map(rs, (x: ListRequest) => if x.id == id then SetStatus(x, code) else x)
  }

  /** Setting a catalog status keeps every row's label and code in agreement. */
  lemma WithStatusConsistent(rs: seq<ListRequest>, id: string, code: int)
    requires IsStatusCode(code)
    requires forall x :: x in rs ==> Consistent(x)
    ensures forall x :: x in WithStatus(rs, id, code) ==> Consistent(x)
  {
    LabelRoundTrip(code);
    var r := WithStatus(rs, id, code);
    forall x | x in r
      ensures Consistent(x)
    {
      var i :| 0 <= i < |r| && r[i] == x;
      assert rs[i] in rs;
    }
  }

  /** The status a `requestStatusUpdate` event sets: In Process when the event
      says "inProcess", Signed for anything else. */
  function EventStatus(status: Json): (code: int)
    ensures code == InProcess <==> status == Str("inProcess")
    ensures code == InProcess || code == Signed
  {
    if status == Str("inProcess") then InProcess else Signed
  }

  // ---------------------------------------------------------------------
  // getActions

  /** When each menu entry is offered, action by action. Clone always; Send
      and Delete on Unsigned; Sign on a Delegated request to its owner, and on
      a request Ready for Signature to a non-reader who is not its owner,
      who may also Reject and Delegate; Print and Download on Signed, and
      Dispatch there to a reader. */
  predicate ActionOffered(a: Action, r: ListRequest, isReader: bool, userId: Option<string>) {
    match a
    case Clone => true
    case Send => r.rawStatus == Some(Unsigned)
    case Delete => r.rawStatus == Some(Unsigned)
    case Sign =>
      (r.rawStatus == Some(Delegated) && r.createdBy == userId) ||
      (r.rawStatus == Some(ReadForSign) && !isReader && r.createdBy != userId)
    case Reject => r.rawStatus == Some(ReadForSign) && !isReader && r.createdBy != userId
    case Delegate => r.rawStatus == Some(ReadForSign) && !isReader && r.createdBy != userId
    case Print => r.rawStatus == Some(Signed)
    case Download => r.rawStatus == Some(Signed)
    case Dispatch => r.rawStatus == Some(Signed) && isReader
  }

  /** Send is greyed out without documents or without officers to send to;
      Sign while this very request is being signed. */
  predicate ActionDisabled(a: Action, r: ListRequest, officerCount: nat, signingRequestId: Option<string>) {
    match a
    case Send => r.documentCount == 0 || officerCount == 0
    case Sign => signingRequestId == Some(r.id)
    case _ => false
  }

  ghost predicate Offers(items: seq<MenuItem>, a: Action) {
    exists i :: 0 <= i < |items| && items[i].action == a
  }

  /** A request that is Rejected, In Process or Dispatched (or whose code is
      unknown) offers nothing but Clone, to every viewer. */
  lemma OnlyCloneWhenSettled(a: Action, r: ListRequest, isReader: bool, userId: Option<string>)
    requires r.rawStatus !in {Some(Unsigned), Some(ReadForSign), Some(Delegated), Some(Signed)}
    ensures ActionOffered(a, r, isReader, userId) <==> a == Clone
  {
  }

  // ---------------------------------------------------------------------
  // The status column

  /** The label shown in the status tag. */
  function DisplayStatus(r: ListRequest, isReader: bool): (shown: string)
    ensures isReader && r.rawStatus == Some(Signed) ==> shown == "Ready for Dispatch"
    ensures !(isReader && r.rawStatus == Some(Signed)) ==>
              shown == if r.status.None? || r.status.value == "" then "Unknown" else r.status.value
  {
    var displayStatus := if isReader && r.rawStatus == Some(Signed) then Label(ReadyForDispatch) else r.status;
    if displayStatus.None? || displayStatus.value == "" then "Unknown" else displayStatus.value
  }

  /** A status the catalog does not know decodes to no label, and the
      fetch mapping then reads the missing label as Unsigned: the row is shown
      as "Unknown" yet is offered Send for Signature and Delete, the actions
      of an Unsigned request. */
  lemma UnknownStatusActedOnAsUnsigned(a: ApiRequest, n: int, isReader: bool, userId: Option<string>)
    requires !IsStatusCode(n) && a.status == DecodeStatus(Some(n))
    ensures ToListRequest(a).rawStatus == Some(Unsigned)
    ensures DisplayStatus(ToListRequest(a), isReader) == "Unknown"
    ensures ActionOffered(Send, ToListRequest(a), isReader, userId)
    ensures ActionOffered(Delete, ToListRequest(a), isReader, userId)
  {
    assert a.status.None?;
  }

  /** On a row whose label and code agree, "Ready for Dispatch" is shown
      exactly to a reader looking at a Signed request, or for the stored code
      Ready for Dispatch itself; and a row whose label is in the catalog
      always shows a catalog label, never "Unknown". */
  lemma DisplayStatusMeaning(r: ListRequest, isReader: bool)
    requires Consistent(r)
    ensures DisplayStatus(r, isReader) == "Ready for Dispatch" <==>
            (isReader && r.rawStatus == Some(Signed)) || r.rawStatus == Some(ReadyForDispatch)
    ensures r.status.Some? && r.status.value != "" && r.rawStatus.Some? ==>
            DisplayStatus(r, isReader) in SignStatusDisplay.Values
  {
    assert Label(ReadyForDispatch) == Some("Ready for Dispatch");
    assert SignStatusDisplay[ReadyForDispatch] in SignStatusDisplay.Values;
    if r.status == Some("Ready for Dispatch") {
      LabelRoundTrip(ReadyForDispatch);
    }
    if r.status.Some? && r.status.value != "" && r.rawStatus.Some? {
      assert SignStatusDisplay[r.rawStatus.value] in SignStatusDisplay.Values;
    }
  }

  /** The tooltip on the status tag. */
  function ReasonTooltip(r: ListRequest): (tip: string)
    ensures tip != "" <==> r.rawStatus == Some(Rejected) && r.rejectionReason.Some? && r.rejectionReason.value != ""
    ensures tip != "" ==> tip == "Reason: " + r.rejectionReason.value
  {
    if r.rawStatus == Some(Rejected) && r.rejectionReason.Some? && r.rejectionReason.value != "" then
      "Reason: " + r.rejectionReason.value
    else ""
  }

  // ---------------------------------------------------------------------
  // The component state

  datatype SignOutcome = SignSucceeded | SignFailed(refetch: Result<Option<Json>, string>)

  class Requests {
    var requests: seq<ListRequest>
    var filteredRequests: seq<ListRequest>
    var searchQuery: string
    var signingRequestId: Option<string>
    var signingProgress: map<string, Progress>
    var officers: seq<Officer>
    /** The session: whether the viewer is a reader, and who they are. */
    const isReader: bool
    const userId: Option<string>
    /** How the page reads a `createdAt` string as a point in time. */
    const timeOf: string -> int

    /** Every row's code agrees with its label, and the shown rows are drawn
        from the full list in its order. */
    ghost predicate Valid()
      reads this
    {
      && (forall r :: r in requests ==> Consistent(r))
      && IsSubsequence(filteredRequests, requests)
    }

    constructor (userRole: Option<int>, userId: Option<string>, timeOf: string -> int)
      ensures Valid()
      ensures isReader == (userRole == Some(Reader.Code()))
      ensures this.userId == userId && this.timeOf == timeOf
      ensures requests == [] && filteredRequests == [] && searchQuery == ""
      ensures signingRequestId == None && signingProgress == map[] && officers == []
    {
      requests, filteredRequests, searchQuery := [], [], "";
      signingRequestId, signingProgress, officers := None, map[], [];
      isReader := userRole == Some(Reader.Code());
      this.userId, this.timeOf := userId, timeOf;
    }

    /** `fetchRequests`: on success both lists become the fetched rows, newest
        first (the search query is not re-applied); on failure nothing
        changes. */
    method LoadRequests(response: Result<Option<Json>, string>)
      requires Valid()
      modifies this`requests, this`filteredRequests
      ensures Valid()
      ensures var data := Receive(response, RequestListBody);
              data.Success? ==> requests == FetchedRows(data.value, timeOf) && filteredRequests == requests
      ensures Receive(response, RequestListBody).Failure? ==>
                requests == old(requests) && filteredRequests == old(filteredRequests)
    {
      var data := Receive(response, RequestListBody);
      if data.Success? {
        var rows := FetchedRows(data.value, timeOf);
        requests := rows;
        filteredRequests := rows;
        SubsequenceRefl(rows);
      }
    }

    /** `fetchOfficers`: on failure the list is left as it was. */
    method LoadOfficers(response: Result<Option<Json>, string>)
      modifies this`officers
      ensures var data := Receive(response, OfficerListBody);
              officers == if data.Success? then data.value else old(officers)
    {
      var data := Receive(response, OfficerListBody);
      if data.Success? {
        officers := data.value;
      }
    }

    /** `handleSearch`. */
    method Search(query: string)
      requires Valid()
      modifies this`searchQuery, this`filteredRequests
      ensures Valid()
      ensures searchQuery == query
      ensures filteredRequests == SearchResults(requests, query)
    {
      searchQuery := query;
      filteredRequests := SearchResults(requests, query);
    }

    /** `handleDeleteRequest`: once the backend has deleted it, every row with
        that id leaves both lists; a failed call changes nothing. */
    method DeleteRequest(id: string, deleted: bool)
      requires Valid()
      modifies this`requests, this`filteredRequests
      ensures Valid()
      ensures requests == if deleted then WithoutRequest(old(requests), id) else old(requests)
      ensures filteredRequests == if deleted then WithoutRequest(old(filteredRequests), id) else old(filteredRequests)
    {
      if deleted {
        SubsequenceFilter(filteredRequests, requests, (x: ListRequest) => x.id != id);
        requests := WithoutRequest(requests, id);
        filteredRequests := WithoutRequest(filteredRequests, id);
      }
    }

    method UpdateStatus(id: string, code: int)
      requires Valid() && IsStatusCode(code)
      modifies this`requests, this`filteredRequests
      ensures Valid()
      ensures requests == WithStatus(old(requests), id, code)
      ensures filteredRequests == WithStatus(old(filteredRequests), id, code)
    {
      WithStatusConsistent(requests, id, code);
      SubsequenceMap(filteredRequests, requests, (x: ListRequest) => if x.id == id then SetStatus(x, code) else x);
      requests := WithStatus(requests, id, code);
      filteredRequests := WithStatus(filteredRequests, id, code);
    }

    /** `handleSignRequest` up to the call to the backend: the request is
        marked as being signed and shown In Process in both lists. */
    method StartSign(id: string)
      requires Valid()
      modifies this`requests, this`filteredRequests, this`signingRequestId
      ensures Valid()
      ensures signingRequestId == Some(id)
      ensures requests == WithStatus(old(requests), id, InProcess)
      ensures filteredRequests == WithStatus(old(filteredRequests), id, InProcess)
    {
      signingRequestId := Some(id);
      UpdateStatus(id, InProcess);
    }

    /** The rest of `handleSignRequest`: a failure refetches the list; on
        every exit the signing id is cleared and the request's progress entry
        is deleted (the source guards the deletion with `if (requestId)`, so an
        empty id keeps its entry). */
    method FinishSign(id: string, outcome: SignOutcome)
      requires Valid()
      modifies this`requests, this`filteredRequests, this`signingRequestId, this`signingProgress
      ensures Valid()
      ensures signingRequestId == None
      ensures signingProgress == if id != "" then old(signingProgress) - {id} else old(signingProgress)
      ensures outcome.SignSucceeded? ==> requests == old(requests) && filteredRequests == old(filteredRequests)
      ensures outcome.SignFailed? && Receive(outcome.refetch, RequestListBody).Success? ==>
                requests == FetchedRows(Receive(outcome.refetch, RequestListBody).value, timeOf) &&
                filteredRequests == requests
      ensures outcome.SignFailed? && Receive(outcome.refetch, RequestListBody).Failure? ==>
                requests == old(requests) && filteredRequests == old(filteredRequests)
    {
      if outcome.SignFailed? {
        LoadRequests(outcome.refetch);
      }
      signingRequestId := None;
      if id != "" {
        signingProgress := signingProgress - {id};
      }
    }

    /** `handleSignRequest` when the signature form does not validate: the
        list is refetched and the signing id cleared; no request id was taken,
        so no progress entry is touched. */
    method AbandonSign(refetch: Result<Option<Json>, string>)
      requires Valid()
      modifies this`requests, this`filteredRequests, this`signingRequestId
      ensures Valid()
      ensures signingRequestId == None
      ensures var data := Receive(refetch, RequestListBody);
              data.Success? ==> requests == FetchedRows(data.value, timeOf) && filteredRequests == requests
      ensures Receive(refetch, RequestListBody).Failure? ==> requests == old(requests) && filteredRequests == old(filteredRequests)
    {
      LoadRequests(refetch);
      signingRequestId := None;
    }

    /** `handleSigningProgress`: the entry of that request, and only it, is
        overwritten. */
    method OnSigningProgress(requestId: string, current: int, total: int)
      modifies this`signingProgress
      ensures signingProgress == old(signingProgress)[requestId := Progress(current, total)]
      ensures forall k :: k != requestId ==> (k in signingProgress <==> k in old(signingProgress))
      ensures forall k :: k != requestId && k in signingProgress ==> signingProgress[k] == old(signingProgress)[k]
    {
      signingProgress := signingProgress[requestId := Progress(current, total)];
    }

    /** `signStatusUpdate`: the matching request becomes In Process or Signed
        in both lists. */
    method OnStatusUpdate(requestId: string, status: Json)
      requires Valid()
      modifies this`requests, this`filteredRequests
      ensures Valid()
      ensures requests == WithStatus(old(requests), requestId, EventStatus(status))
      ensures filteredRequests == WithStatus(old(filteredRequests), requestId, EventStatus(status))
    {
      UpdateStatus(requestId, EventStatus(status));
    }

    /** `getActions`: the menu of one row, Clone first, each entry at most
        once and in `MenuRank` order, offered and greyed out as
        `ActionOffered` and `ActionDisabled` say. */
    method GetActions(record: ListRequest) returns (items: seq<MenuItem>)
      ensures |items| > 0 && items[0] == MenuItem(Clone, false)
      ensures forall a :: Offers(items, a) <==> ActionOffered(a, record, isReader, userId)
      ensures forall i :: 0 <= i < |items| ==>
                items[i].disabled == ActionDisabled(items[i].action, record, |officers|, signingRequestId)
      ensures forall i, j :: 0 <= i < j < |items| ==> items[i].action != items[j].action
      ensures forall i, j :: 0 <= i < j < |items| ==> MenuRank(items[i].action) < MenuRank(items[j].action)
    {
      var clone := MenuItem(Clone, false);
      var sign := MenuItem(Sign, signingRequestId == Some(record.id));
      if record.rawStatus == Some(Unsigned) {
        items := [clone, MenuItem(Send, record.documentCount == 0 || |officers| == 0), MenuItem(Delete, false)];
        assert items[1].action == Send && items[2].action == Delete;
      } else if record.rawStatus == Some(Delegated) && record.createdBy == userId {
        items := [clone, sign];
        assert items[1].action == Sign;
      } else if record.rawStatus == Some(ReadForSign) && !isReader && record.createdBy != userId {
        items := [clone, sign, MenuItem(Reject, false), MenuItem(Delegate, false)];
        assert items[1].action == Sign && items[2].action == Reject && items[3].action == Delegate;
      } else if record.rawStatus == Some(Signed) && isReader {
        items := [clone, MenuItem(Print, false), MenuItem(Download, false), MenuItem(Dispatch, false)];
        assert items[1].action == Print && items[2].action == Download && items[3].action == Dispatch;
      } else if record.rawStatus == Some(Signed) {
        items := [clone, MenuItem(Print, false), MenuItem(Download, false)];
        assert items[1].action == Print && items[2].action == Download;
      } else {
        items := [clone];
      }
      assert items[0].action == Clone;
    }
  }

  // ---------------------------------------------------------------------
  // What the decoder as written does to the menu and the tooltip

  /** As written, a Delegated request is never offered to its owner for
      signing once a user is signed in: the decoder has dropped `createdBy`,
      and `undefined == userId` fails. */
  lemma AsWrittenOwnerCannotSignDelegated(j: Json, isReader: bool, userId: string)
    requires ParseRequestWith(AsWritten, j).Some?
    requires ToListRequest(ParseRequestWith(AsWritten, j).value).rawStatus == Some(Delegated)
    ensures !ActionOffered(Sign, ToListRequest(ParseRequestWith(AsWritten, j).value), isReader, Some(userId))
  {
    AsWrittenDropsOwnerAndReasons(j);
    var a := ParseRequestWith(AsWritten, j).value;
    NoOwnerNoSign(ToListRequest(a), isReader, userId);
  }

  /** A Delegated row without an owner is offered Sign to nobody signed in. */
  lemma NoOwnerNoSign(r: ListRequest, isReader: bool, userId: string)
    requires r.createdBy.None? && r.rawStatus == Some(Delegated)
    ensures !ActionOffered(Sign, r, isReader, Some(userId))
  {
  }

  /** As written, the owner check on a Ready-for-Signature request never
      fires: every signed-in non-reader, the request's own author included,
      is offered Sign, Reject and Delegate. */
  lemma AsWrittenOwnerOfferedOwnReady(j: Json, userId: string)
    requires ParseRequestWith(AsWritten, j).Some?
    requires ToListRequest(ParseRequestWith(AsWritten, j).value).rawStatus == Some(ReadForSign)
    ensures var r := ToListRequest(ParseRequestWith(AsWritten, j).value);
            ActionOffered(Sign, r, false, Some(userId)) && ActionOffered(Reject, r, false, Some(userId)) &&
            ActionOffered(Delegate, r, false, Some(userId))
  {
    AsWrittenDropsOwnerAndReasons(j);
    var a := ParseRequestWith(AsWritten, j).value;
    NoOwnerOfferedReady(ToListRequest(a), userId);
  }

  /** A Ready-for-Signature row without an owner offers every signed-in
      non-reader the signing actions. */
  lemma NoOwnerOfferedReady(r: ListRequest, userId: string)
    requires r.createdBy.None? && r.rawStatus == Some(ReadForSign)
    ensures ActionOffered(Sign, r, false, Some(userId)) && ActionOffered(Reject, r, false, Some(userId))
    ensures ActionOffered(Delegate, r, false, Some(userId))
  {
  }

  /** As written, no rejection reason ever reaches the tooltip. */
  lemma AsWrittenHidesRejectionReason(j: Json)
    requires ParseRequestWith(AsWritten, j).Some?
    ensures ReasonTooltip(ToListRequest(ParseRequestWith(AsWritten, j).value)) == ""
  {
    AsWrittenDropsOwnerAndReasons(j);
  }

  /** With the corrected decoder, the owner of a Delegated request is offered
      Sign, and a rejected request shows its reason. */
  lemma CorrectedOwnerSignsDelegated(j: Json, isReader: bool, userId: string)
    requires j.Obj? && ParseRequest(j).Some?
    requires Get(j.fields, "createdBy") == Some(Str(userId))
    requires ToListRequest(ParseRequest(j).value).rawStatus == Some(Delegated)
    ensures ActionOffered(Sign, ToListRequest(ParseRequest(j).value), isReader, Some(userId))
  {
    CorrectedKeepsOwnerAndReason(j, userId, "");
  }

  /** With the corrected decoder, the author of a Ready-for-Signature request
      is offered none of Sign, Reject and Delegate on it. */
  lemma CorrectedOwnerNotOfferedOwnReady(j: Json, isReader: bool, userId: string)
    requires j.Obj? && ParseRequest(j).Some?
    requires Get(j.fields, "createdBy") == Some(Str(userId))
    requires ToListRequest(ParseRequest(j).value).rawStatus == Some(ReadForSign)
    ensures var r := ToListRequest(ParseRequest(j).value);
            !ActionOffered(Sign, r, isReader, Some(userId)) && !ActionOffered(Reject, r, isReader, Some(userId)) &&
            !ActionOffered(Delegate, r, isReader, Some(userId))
  {
    CorrectedKeepsOwnerAndReason(j, userId, "");
    OwnerNotOfferedReady(ToListRequest(ParseRequest(j).value), isReader, userId);
  }

  /** A Ready-for-Signature row offers its own owner none of the signing
      actions. */
  lemma OwnerNotOfferedReady(r: ListRequest, isReader: bool, userId: string)
    requires r.createdBy == Some(userId) && r.rawStatus == Some(ReadForSign)
    ensures !ActionOffered(Sign, r, isReader, Some(userId)) && !ActionOffered(Reject, r, isReader, Some(userId))
    ensures !ActionOffered(Delegate, r, isReader, Some(userId))
  {
  }

  /** With the corrected decoder, a rejected request sent with a reason shows
      that reason in its tooltip. */
  lemma CorrectedShowsRejectionReason(j: Json, reason: string)
    requires j.Obj? && ParseRequest(j).Some?
    requires Get(j.fields, "rejectionReason") == Some(Str(reason)) && reason != ""
    requires ToListRequest(ParseRequest(j).value).rawStatus == Some(Rejected)
    ensures ReasonTooltip(ToListRequest(ParseRequest(j).value)) == "Reason: " + reason
  {
    CorrectedKeepsOwnerAndReason(j, "", reason);
  }
}
