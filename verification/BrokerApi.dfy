/** The broker-neutral vocabulary shared by adapters and the execution engine. */
module BrokerApi {
  import opened MachineInts
  import opened Matching

  datatype OrderType = Market | Limit

  datatype Exchange = Nse | Bse

  datatype OrderIntent = OrderIntent(
    correlationId: nat,
    symbol: U32,
    side: Side,
    quantity: U64,
    orderType: OrderType,
    limitPaise: I64,
    exchange: Exchange)

  datatype OrderModification = OrderModification(
    brokerOrderId: string,
    newQuantity: Option<U64>,
    newLimitPaise: Option<I64>)

  datatype SubmitAck = SubmitAck(brokerOrderId: string, brokerTs: Option<U64>)

  datatype OrderState = New | Submitted | PartiallyFilled | Filled | Cancelled | Rejected {
    predicate IsTerminal() {
      Filled? || Cancelled? || Rejected?
    }
  }

  datatype OrderStatus = OrderStatus(
    brokerOrderId: string, state: OrderState, filledQty: U64, avgFillPaise: I64, brokerTs: Option<U64>)

  /** Adapter errors, without their message texts. */
  datatype BrokerError =
    | NotReady | Refused | Transient | Network | Http(status: nat) | Auth
    | InvalidApprovalToken | UnknownOrderId(id: string) | Internal
  {
    predicate IsRetryable() {
      Transient? || Network?
    }

    predicate CountsTowardFailover() {
      Transient? || Network? || Http? || Refused?
    }
  }

  datatype ReadyState = Ready | ConfigError | Disconnected

  datatype Result<+T, +E> = Ok(value: T) | Err(error: E)
}
