/** The part of chain storage that the registry, anchor and oracle pallets share. */
module Storage {
  import opened Primitives

  type Key = k: Bytes | |k| <= 128

  type Value = v: Bytes | |v| <= 2048

  type States = map<(H256, Key), Value>

  datatype Error =
    | NameAlreadyClaimed
    | NameNotExist
    | NotOwner
    | CondNotMet
    | FailedToDecodeAction
    | QueueIsFull
    | InvalidQueueHead
    | FailedToAuthenticateResponse
    | FailedToDecodeResponse
    | FailedToPushMessageToAnchor
    | FailedToGetApiFeed
    | ApiFeedNotActive
    | FailedToEncodeData
    | FailedToFindOracleFeeds
    | FailedToGetFeedRequest
    | Trap // a panic: the transaction is abandoned with no effect

  datatype Action = Reply(data: Bytes) | SetQueueHead(head: nat)

  /** A condition `Eq(key, value)`; `None` asks that the key is absent. */
  datatype Cond = Eq(key: Key, value: Option<Value>)

  datatype RollupTx = RollupTx(
    conds: seq<Cond>,
    actions: seq<Bytes>,
    updates: seq<(Key, Option<Value>)>)

  datatype FeedStatus = Registered | Active | Inactive | Slashed

  datatype ApiFeed = ApiFeed(url: Bytes, path: Bytes, status: FeedStatus)

  datatype Request = Request(feedKey: Bytes, caller: Account, nonce: nat, requestedData: Value)

  datatype ResponseRecord = ResponseRecord(contractId: H256, requestId: H256, responseData: Value)

  datatype Chain = Chain(
    submitters: map<H256, Account>,
    states: States,
    feeds: map<(Account, Bytes), ApiFeed>,
    requests: map<H256, Request>,
    feedData: map<(Account, Request), Value>)

  const GENESIS: Chain := Chain(map[], map[], map[], map[], map[])

  /** Configuration, and the functions of libraries outside this repository: the SCALE codec and the
      storage iteration order, of which only the last key matters. */
  datatype Config = Config(
    prefix: Bytes,
    capacity: nat,
    decodeAction: Bytes -> Option<Action>,
    decodeResponse: Bytes -> Option<ResponseRecord>,
    encodeFeed: (Bytes, Bytes) -> Bytes,
    lastKey: set<H256> -> H256)
  {
    /** A queue key must fit the 128-byte bound, and the capacity is a `u32`. */
    predicate Valid() {
      |prefix| + 5 <= 128 && capacity < U32_LIMIT
    }
  }

  function Get(st: States, name: H256, key: Key): Option<Value> {
    if (name, key) in st then Some(st[(name, key)]) else None
  }

  /** Writes `Some(v)`, removes on `None`. */
  function Put(st: States, name: H256, key: Key, value: Option<Value>): States {
    match value
    case Some(v) => st[(name, key) := v]
    case None => st - {(name, key)}
  }
}
