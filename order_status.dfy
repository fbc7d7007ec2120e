/** The closed set of order states, its string backing values, the parse of a request
    string into a state, and the display attributes the admin screens show for each. */
module OrderStatus {
  import opened Common

  datatype Status = Pending | Processing | Shipped | Delivered | Cancelled

  /** Every case, in declaration order. */
  const AllStatuses: seq<Status> := [Pending, Processing, Shipped, Delivered, Cancelled]

  /** The backing value stored in the `status` column and sent in tool output. */
  function Value(s: Status): string {
    match s
    case Pending => "pending"
    case Processing => "processing"
    case Shipped => "shipped"
    case Delivered => "delivered"
    case Cancelled => "cancelled"
  }

  /** `OrderStatus::tryFrom`: the case whose backing value is `v`, or nothing. */
  function TryFrom(v: string): (r: Option<Status>)
    ensures r.Some? ==> Value(r.value) == v
    ensures r.None? ==> forall s :: Value(s) != v
  {
    if v == "pending" then Some(Pending)
    else if v == "processing" then Some(Processing)
    else if v == "shipped" then Some(Shipped)
    else if v == "delivered" then Some(Delivered)
    else if v == "cancelled" then Some(Cancelled)
    else None
  }

  /** There are exactly five cases, each listed once. */
  lemma AllStatusesExact()
    ensures |AllStatuses| == 5
    ensures forall s :: s in AllStatuses
    ensures forall i, j :: 0 <= i < j < |AllStatuses| ==> AllStatuses[i] != AllStatuses[j]
  {
    forall s ensures s in AllStatuses {
      var i := match s
        case Pending => 0
        case Processing => 1
        case Shipped => 2
        case Delivered => 3
        case Cancelled => 4;
      assert AllStatuses[i] == s;
    }
  }

  /** Distinct cases have distinct backing values. */
  lemma ValueInjective(a: Status, b: Status)
    ensures Value(a) == Value(b) ==> a == b
  {
  }

  /** Parsing undoes the backing value. */
  lemma TryFromValue(s: Status)
    ensures TryFrom(Value(s)) == Some(s)
  {
  }

  /** The display label is the backing value with its first letter in upper case. */
  function Label(s: Status): (l: string)
    ensures |l| == |Value(s)| > 0
    ensures l[0] as int == Value(s)[0] as int - 32 && l[1..] == Value(s)[1..]
  {
    match s
    case Pending => "Pending"
    case Processing => "Processing"
    case Shipped => "Shipped"
    case Delivered => "Delivered"
    case Cancelled => "Cancelled"
  }

  /** Distinct cases have distinct labels. */
  lemma LabelInjective(a: Status, b: Status)
    ensures Label(a) == Label(b) ==> a == b
  {
  }

  /** The badge colour, one of the admin palette's named colours. */
  function Color(s: Status): (c: string)
    ensures c in {"warning", "info", "primary", "success", "danger"}
  {
    match s
    case Pending => "warning"
    case Processing => "info"
    case Shipped => "primary"
    case Delivered => "success"
    case Cancelled => "danger"
  }

  /** The badge icon: an outline icon name. */
  function Icon(s: Status): (i: string)
    ensures "heroicon-o-" <= i
  {
    match s
    case Pending => "heroicon-o-clock"
    case Processing => "heroicon-o-arrow-path"
    case Shipped => "heroicon-o-truck"
    case Delivered => "heroicon-o-check-circle"
    case Cancelled => "heroicon-o-x-circle"
  }

  /** No two cases share a colour or an icon. */
  lemma ColorAndIconInjective(a: Status, b: Status)
    ensures Color(a) == Color(b) ==> a == b
    ensures Icon(a) == Icon(b) ==> a == b
  {
  }
}
