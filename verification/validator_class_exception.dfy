/**
 * The failure `asserted()` raises: a snapshot of the errors and passed fields,
 * queried by row.
 */
module ValidatorClassException {
  import opened Wrappers
  import opened Values

  /** What `asserted()` hands to the exception: the `errors` and `passed`
      members of its JSON message. */
  datatype Payload = Payload(errors: Option<ErrorMap>, passed: Option<PassMap>)

  /** The exception's state: `$messages` and `$passedFields`. */
  datatype Exception = Exception(messages: Option<ErrorMap>, passedFields: Option<PassMap>)

  /** Reading an index that is not there: PHP's undefined-offset notice
      followed by the `TypeError` of returning null from an array method. */
  datatype LookupError = UndefinedRow(row: int)

  /** What `getPassedFields` returns: one row's list, or all rows. */
  datatype PassedView = RowFields(fields: seq<string>) | AllRows(rows: PassMap)

  /** What `getMessages` returns: one row's messages, or all rows. */
  datatype MessagesView = RowMessages(fields: FieldMessages) | AllMessages(rows: ErrorMap)

  /** The constructor: the snapshot is kept as it was sent. */
  function Construct(p: Payload): (e: Exception)
    ensures e.messages == p.errors
    ensures e.passedFields == p.passed
  {
    Exception(p.errors, p.passed)
  }

  /** `getAllPassedFields()`: every row's passed fields, empty when none were recorded. */
  function GetAllPassedFields(e: Exception): (m: PassMap)
    ensures e.passedFields.None? ==> m == map[]
    ensures e.passedFields.Some? ==> m == e.passedFields.value
  {
    e.passedFields.GetOr(map[])
  }

  /** `getPassedFields($row_index)`: with an index, that row's passed fields or
      the empty list when the row recorded none; without, every row. */
  function GetPassedFields(e: Exception, rowIndex: Option<int>): (r: PassedView)
    ensures rowIndex.None? <==> r.AllRows?
    ensures r.AllRows? ==> r.rows == GetAllPassedFields(e)
    ensures rowIndex.Some? && IntK(rowIndex.value) in GetAllPassedFields(e) ==>
      r == RowFields(GetAllPassedFields(e)[IntK(rowIndex.value)])
    ensures rowIndex.Some? && IntK(rowIndex.value) !in GetAllPassedFields(e) ==>
      r == RowFields([])
  {
    match rowIndex
    case Some(i) =>
      if e.passedFields.Some? && IntK(i) in e.passedFields.value
      then RowFields(e.passedFields.value[IntK(i)])
      else RowFields([])
    case None => AllRows(GetAllPassedFields(e))
  }

  /** `getAllMessages()`: every row's messages, empty when none were recorded. */
  function GetAllMessages(e: Exception): (m: ErrorMap)
    ensures e.messages.None? ==> m == map[]
    ensures e.messages.Some? ==> m == e.messages.value
  {
    e.messages.GetOr(map[])
  }

  /** `getRowMessages($row)`: the messages of a row that recorded a failure;
      any other row is an error, never an empty result. */
  function GetRowMessages(e: Exception, row: int): (r: Result<FieldMessages, LookupError>)
    ensures r.Success? <==> IntK(row) in GetAllMessages(e)
    ensures r.Success? ==> r.value == GetAllMessages(e)[IntK(row)]
    ensures r.Failure? ==> r.error == UndefinedRow(row)
  {
    if e.messages.Some? && IntK(row) in e.messages.value
    then Success(e.messages.value[IntK(row)])
    else Failure(UndefinedRow(row))
  }

  /** `getMessages($row_index)`: with an index, `getRowMessages`; without,
      `getAllMessages`. */
  function GetMessages(e: Exception, rowIndex: Option<int>): (r: Result<MessagesView, LookupError>)
    ensures rowIndex.None? ==> r == Success(AllMessages(GetAllMessages(e)))
    ensures rowIndex.Some? ==> (r.Success? <==> IntK(rowIndex.value) in GetAllMessages(e))
    ensures rowIndex.Some? && r.Success? ==>
      r.value == RowMessages(GetAllMessages(e)[IntK(rowIndex.value)])
  {
    match rowIndex
    case Some(i) =>
      (match GetRowMessages(e, i)
       case Success(m) => Success(RowMessages(m))
       case Failure(err) => Failure(err))
    case None => Success(AllMessages(GetAllMessages(e)))
  }
}
