/** The values that travel through the system (internal/domain/seckill.go,
    internal/infra/kafka/topics.go). Times are integers on one clock. */
module Domain {

  datatype Option<+T> = None | Some(value: T)

  datatype Result<+T, +E> = Ok(value: T) | Err(error: E)

  datatype Activity = Activity(
    id: int, productId: int, totalStock: int, startAt: int, endAt: int, perUserLimit: int)

  datatype OrderStatus = StatusQueued | StatusPaid | StatusCanceled | StatusRefunded

  datatype Order = Order(
    id: int, userId: int, activityId: int, productId: int,
    status: OrderStatus, token: string, createdAt: int)

  /** A queue token is a fresh UUIDv7, or the printed order id when minting one failed.
      `NoToken` is the empty string, which only a foreign message can carry. */
  datatype QueueToken = NoToken | Uuid(text: string) | OrderNo(id: int)

  /** The value stored under queue:{token}. */
  datatype TokenState = Waiting | Success(orderId: int) | Failed(reason: string)

  datatype OrderMessage = OrderMessage(
    orderId: int, activityId: int, userId: int, productId: int,
    token: string, queueToken: QueueToken, producedAt: int)

  datatype Outcome =
    | Queued | SoldOut | UserLimit | Duplicate | NotStarted
    | Ended | NotFound | Internal | NotWarmed

  /** What became of one remote call: it took effect and answered, it took effect but the
      caller saw an error, or it never took effect and the caller saw an error. */
  datatype Link = Fine | LostReply | Unreached

  function Min(a: int, b: int): int {
    if a <= b then a else b
  }

  function Max0(a: int): nat {
    if a <= 0 then 0 else a
  }

  /** Always true. An equation under `InView(n) ==>` is used only where this is mentioned. */
  predicate InView(n: nat) {
    true
  }

  lemma Inhabited(us: set<int>)
    requires us != {}
    ensures exists u :: u in us
  {
    if forall u :: u !in us {
      assert false;
    }
  }
}
