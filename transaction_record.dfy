/** The persisted transaction record: an identifier assigned by persistence,
    a total amount and a free-form status tag, each of which may be null. */
module Entity {
  import opened Wrappers
  import opened Uuids

  /** The status the payment verification writes. */
  const Paid: string := "paid"

  /** The observable content of a record apart from its identifier. */
  datatype RecordState = RecordState(totalAmount: Option<int>, status: Option<string>)

  /** A transaction record. `totalAmount` is a count of cents (the column has
      scale 2); None stands for a null reference in every field. */
  class TransactionRecord {
    var id: Option<Uuid>
    var totalAmount: Option<int>
    var status: Option<string>

    function State(): RecordState
      reads this
    {
      RecordState(totalAmount, status)
    }

    /** `new TransactionRecord(totalAmount)`: the amount as given, no identifier
        and no status yet. */
    constructor (totalAmount: Option<int>)
      ensures this.totalAmount == totalAmount
      ensures id == None && status == None
    {
      this.totalAmount := totalAmount;
      id := None;
      status := None;
    }

    /** `new TransactionRecord()`: every field unset. */
    constructor Empty()
      ensures id == None && totalAmount == None && status == None
    {
      id := None;
      totalAmount := None;
      status := None;
    }

    method SetTotalAmount(amount: Option<int>)
      modifies this`totalAmount
      ensures GetTotalAmount() == amount
      ensures id == old(id) && status == old(status)
    {
      totalAmount := amount;
    }

    method SetStatus(s: Option<string>)
      modifies this`status
      ensures GetStatus() == s
      ensures id == old(id) && totalAmount == old(totalAmount)
    {
      status := s;
    }

    function GetId(): (r: Option<Uuid>)
      reads this
      ensures r == id
    {
      id
    }

    function GetTotalAmount(): (r: Option<int>)
      reads this
      ensures r == totalAmount
    {
      totalAmount
    }

    function GetStatus(): (r: Option<string>)
      reads this
      ensures r == status
    {
      status
    }
  }
}
