/** The records an operation is made of, and the empty-record rule of operation_from_dict. */
module Operations {
  import opened Wrappers
  import opened Dates

  datatype Currency = Currency(name: string, code: string)

  /**
   * amount is the text Python prints for the float amount; the float itself and
   * its repr are not part of this model.
   */
  datatype OperationAmount = OperationAmount(amount: string, currency: Currency)

  datatype Operation = Operation(
    id: int,
    state: string,
    date: Date,
    operationAmount: OperationAmount,
    description: string,
    fromAccount: Option<string>,
    toAccount: Option<string>)

  /** The Python exceptions the core can raise. */
  datatype PyError = KeyError | AttributeError | IndexError

  /** The top-level keys operation_from_dict subscripts unconditionally. */
  const RequiredKeys: set<string> := {"operationAmount", "date", "id", "state", "description"}

  /**
   * operation_from_dict on a record with top-level keys `keys`. `found` stands
   * for the Operation the field lookups build when every key is present; "from"
   * and "to" are read with dict.get, so an absent key gives None.
   */
  function OperationFromDict(keys: set<string>, found: Operation): (r: Result<Option<Operation>, PyError>)
    ensures r == Ok(None) <==> keys == {}
    ensures r.Err? <==> keys != {} && !(RequiredKeys <= keys)
    ensures r.Err? ==> r.error == KeyError
    ensures r.Ok? && r.value.Some? ==>
      && r.value.value.id == found.id
      && r.value.value.state == found.state
      && r.value.value.date == found.date
      && r.value.value.operationAmount == found.operationAmount
      && r.value.value.description == found.description
      && ("from" in keys ==> r.value.value.fromAccount == found.fromAccount)
      && ("to" in keys ==> r.value.value.toAccount == found.toAccount)
      && ("from" !in keys ==> r.value.value.fromAccount == None)
      && ("to" !in keys ==> r.value.value.toAccount == None)
  {
    if keys == {} then Ok(None)
    else if !(RequiredKeys <= keys) then Err(KeyError)
    else Ok(Some(found.(
      fromAccount := if "from" in keys then found.fromAccount else None,
      toAccount := if "to" in keys then found.toAccount else None)))
  }
}
