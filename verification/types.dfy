/** The domain types shared by every lifecycle operation: the session status enumeration
    and the session record. */
module Types {

  /** The four members of the `SessionStatus` string enumeration, in declaration order. */
  datatype Status = Pending | Active | Completed | Failed

  /** The string value carried by each enumeration member; each equals the member's name. */
  function Name(st: Status): string
  {
    match st
    case Pending => "pending"
    case Active => "active"
    case Completed => "completed"
    case Failed => "failed"
  }

  /** The enumeration's values in declaration order, as `Object.values` lists them. */
  const AllStatuses: seq<Status> := [Pending, Active, Completed, Failed]

  /** A session record. Timestamps are integers (a clock reading), since the model
      gives no meaning to dates beyond their ordering. */
  datatype Session = Session(
    sessionId: string,
    region: string,
    status: Status,
    createdAt: int,
    updatedAt: int
  )

  /** Every status value is one of the enumerated members, and the members are distinct. */
  lemma StatusIsEnumerated(st: Status)
    ensures st in AllStatuses
    ensures |AllStatuses| == 4
    ensures forall i, j :: 0 <= i < j < |AllStatuses| ==> AllStatuses[i] != AllStatuses[j]
  {
  }

  /** Distinct members carry distinct string values, so the name determines the member. */
  lemma NameInjective(a: Status, b: Status)
    ensures Name(a) == Name(b) <==> a == b
  {
  }
}
