/** The status catalog and the role codes shared by every page
    (src/libs/constants.ts). */
module Constants {
  import opened Wrappers

  /** `roles`: the numeric codes a session carries. */
  datatype Role = Admin | Officer | Reader {
    function Code(): int {
      match this
      case Admin => 1
      case Officer => 2
      case Reader => 3
    }
  }

  /** The role a session's numeric code denotes, if any. */
  function RoleOf(code: int): (r: Option<Role>)
    ensures r.Some? <==> 1 <= code <= 3
    ensures r.Some? ==> r.value.Code() == code
  {
    if code == 1 then Some(Admin)
    else if code == 2 then Some(Officer)
    else if code == 3 then Some(Reader)
    else None
  }

  /** Distinct roles have distinct codes, so a code names one role. */
  lemma RoleCodeRoundTrip(r: Role)
    ensures RoleOf(r.Code()) == Some(r)
  {
  }

  // `signStatus`: the persisted status codes of requests and documents.
  const Unsigned: int := 0
  const ReadForSign: int := 1
  const Rejected: int := 2
  const Delegated: int := 3
  const InProcess: int := 4
  const Signed: int := 5
  const ReadyForDispatch: int := 6
  const Dispatched: int := 7

  predicate IsStatusCode(code: int) {
    Unsigned <= code <= Dispatched
  }

  /** `signStatusDisplay`: the label shown for each status code. */
  const SignStatusDisplay: map<int, string> := map[
    Unsigned := "Unsigned",
    ReadForSign := "Ready for Signature",
    Rejected := "Rejected",
    Delegated := "Delegated",
    InProcess := "In Process",
    Signed := "Signed",
    ReadyForDispatch := "Ready for Dispatch",
    Dispatched := "Dispatched"
  ]

  /** The catalog lists the eight codes 0..7 in the order of the enum. */
  lemma StatusCodesInOrder()
    ensures [Unsigned, ReadForSign, Rejected, Delegated, InProcess, Signed, ReadyForDispatch, Dispatched]
         == [0, 1, 2, 3, 4, 5, 6, 7]
    ensures forall code :: IsStatusCode(code) <==> code in SignStatusDisplay
  {
  }

  /** `signStatusDisplay[code]`; `None` is `undefined`. The table is total on
      the eight codes, and no label is empty. */
  function Label(code: int): (name: Option<string>)
    ensures name.Some? <==> IsStatusCode(code)
    ensures name.Some? ==> name.value != ""
  {
    if code in SignStatusDisplay then Some(SignStatusDisplay[code]) else None
  }

  /** No two codes share a label, so the label determines the code. */
  lemma LabelsDistinct(c1: int, c2: int)
    requires IsStatusCode(c1) && IsStatusCode(c2)
    requires Label(c1) == Label(c2)
    ensures c1 == c2
  {
  }
}
