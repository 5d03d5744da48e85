/** One line of the retail transaction table and its timestamp. */
module Transactions {
  import opened Collections

  datatype Weekday = Monday | Tuesday | Wednesday | Thursday | Friday | Saturday | Sunday

  /** `Timestamp.day_name()`. */
  function DayName(d: Weekday): string
  {
    match d
    case Monday => "Monday"
    case Tuesday => "Tuesday"
    case Wednesday => "Wednesday"
    case Thursday => "Thursday"
    case Friday => "Friday"
    case Saturday => "Saturday"
    case Sunday => "Sunday"
  }

  /** Position of the day's name in alphabetical order, which is the order
      pandas gives to group keys that are day names. */
  function AlphaRank(d: Weekday): (r: int)
    ensures 0 <= r < 7
  {
    match d
    case Friday => 0
    case Monday => 1
    case Saturday => 2
    case Sunday => 3
    case Thursday => 4
    case Tuesday => 5
    case Wednesday => 6
  }

  function DayOfRank(r: int): Weekday
    requires 0 <= r < 7
  {
    if r == 0 then Friday
    else if r == 1 then Monday
    else if r == 2 then Saturday
    else if r == 3 then Sunday
    else if r == 4 then Thursday
    else if r == 5 then Tuesday
    else Wednesday
  }

  /** Strict lexicographic order on strings. */
  predicate LexLess(a: string, b: string)
  {
    if a == [] then b != []
    else if b == [] then false
    else if a[0] != b[0] then a[0] < b[0]
    else LexLess(a[1..], b[1..])
  }

  /** The rank is a bijection onto 0..6 and follows the alphabetical order
      of the names. */
  lemma AlphaRankOrdersNames(a: Weekday, b: Weekday, r: int)
    requires 0 <= r < 7
    ensures DayOfRank(AlphaRank(a)) == a
    ensures AlphaRank(DayOfRank(r)) == r
    ensures AlphaRank(a) < AlphaRank(b) <==> LexLess(DayName(a), DayName(b))
  {
    if a == b {
      LexLessIrreflexive(DayName(a));
    } else {
      var x, y := DayName(a), DayName(b);
      assert x[0] != y[0] || LexLess(x, y) == LexLess(x[1..], y[1..]);
    }
  }

  lemma {:induction false} LexLessIrreflexive(s: string)
    ensures !LexLess(s, s)
  {
    if s != [] {
      LexLessIrreflexive(s[1..]);
    }
  }

  /** A point in time: an instant in seconds on a single clock, with the
      hour of day and weekday the date parser attaches to it. */
  datatype Timestamp = Timestamp(instant: int, hour: int, weekday: Weekday)

  const SECONDS_PER_DAY: int := 86400

  /** `(later - earlier).days` for instants in seconds and a non-negative
      difference: the number of whole days elapsed. */
  function WholeDays(later: int, earlier: int): (d: int)
    requires later >= earlier
    ensures d >= 0
    ensures d * SECONDS_PER_DAY <= later - earlier < (d + 1) * SECONDS_PER_DAY
  {
    (later - earlier) / SECONDS_PER_DAY
  }

  datatype Transaction = Transaction(
    invoiceNo: string,
    description: Option<string>,
    quantity: int,
    invoiceDate: Timestamp,
    unitPrice: real,
    customerId: Option<int>)

  /** The line value `Quantity * UnitPrice`. */
  function Amount(t: Transaction): real { t.quantity as real * t.unitPrice }

  function Quantity(t: Transaction): real { t.quantity as real }

  predicate HasCustomer(t: Transaction) { t.customerId.Some? }

  /** The group key of a row with a customer (0 stands in for a missing id
      and is never used once missing ids are dropped). */
  function CustomerKey(t: Transaction): int
  {
    match t.customerId
    case Some(c) => c
    case None => 0
  }

  /** `dropna(subset=['CustomerID'])`: every row with a customer id is
      kept, duplicates included, in table order. */
  function DropMissingCustomers(rows: seq<Transaction>): (r: seq<Transaction>)
    ensures IsSubsequence(r, rows)
    ensures forall t :: t in r <==> t in rows && t.customerId.Some?
    ensures forall t :: multiset(r)[t] == if t.customerId.Some? then multiset(rows)[t] else 0
  {
    Filter(rows, HasCustomer)
  }

  /** Dropping missing ids a second time changes nothing. */
  lemma DropMissingCustomersIdempotent(rows: seq<Transaction>)
    ensures DropMissingCustomers(DropMissingCustomers(rows)) == DropMissingCustomers(rows)
  {
    var r := DropMissingCustomers(rows);
    forall i | 0 <= i < |r| ensures HasCustomer(r[i]) {
      assert r[i] in r;
    }
    FilterKeepsAll(r, HasCustomer);
  }
}
