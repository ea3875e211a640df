/** The response-decoding half of `ListTransactions` and `GetTransaction`
    (ton/transactions.go): dispatch on the response tag, thread a byte cursor
    through the payload, and turn the decoded cells into transactions whose
    hash is the cell hash. Request sending is outside this module; only the
    conversions the requests apply to their arguments are modelled. */
module Transactions {
  import opened Results
  import opened Wire
  import opened LiteServer

  // ---------------------------------------------------------------------------
  // Requests

  /** `liteServer.accountId`. */
  datatype AccountId = AccountId(workchain: int32, id: Bytes)

  /** `GetTransactions`: the list request. */
  datatype GetTransactions = GetTransactions(limit: int32, account: AccountId, lt: int64, txHash: Bytes)

  /** `GetOneTransaction`: the single-transaction request. */
  datatype GetOneTransaction = GetOneTransaction(block: BlockInfo, account: AccountId, lt: int64)

  /** The list request built from the caller's unsigned arguments: `limit` and
      `lt` keep their bits and become signed, so a limit of 2^31 or more is
      sent as a negative count. */
  function ListRequest(account: AccountId, limit: uint32, lt: uint64, txHash: Bytes): (q: GetTransactions)
    ensures Uint32Of(q.limit) == limit && Uint64Of(q.lt) == lt
    ensures q.limit < 0 <==> limit >= Two31
    ensures q.account == account && q.txHash == txHash
  {
    GetTransactions(Int32Of(limit), account, Int64Of(lt), txHash)
  }

  /** The single-transaction request. */
  function OneRequest(block: BlockInfo, account: AccountId, lt: uint64): (q: GetOneTransaction)
    ensures Uint64Of(q.lt) == lt
    ensures q.lt < 0 <==> lt >= Two63
    ensures q.block == block && q.account == account
  {
    GetOneTransaction(block, account, Int64Of(lt))
  }

  // ---------------------------------------------------------------------------
  // The block-header vector

  /** The cursor after `count` block headers, each loaded from the rest the
      previous load left; the first failing load decides the error. The
      headers themselves are discarded: only the cursor advance matters. */
  function SkipBlockHeaders(read: Reader<BlockInfo>, data: Bytes, count: nat): (r: Result<Bytes, LibError>)
    ensures NeverGrows(read) && r.Success? ==> |r.value| <= |data|
    decreases count
  {
    if count == 0 then Success(data)
    else match read(data)
      case Failure(e) => Failure(e)
      case Success((_, rest)) => SkipBlockHeaders(read, rest, count - 1)
  }

  /** Skipping `m` headers and then `n` more is skipping `m + n`. */
  lemma {:induction false} SkipBlockHeadersAdd(read: Reader<BlockInfo>, data: Bytes, m: nat, n: nat)
    ensures SkipBlockHeaders(read, data, m + n) ==
            match SkipBlockHeaders(read, data, m)
            case Failure(e) => Failure(e)
            case Success(c) => SkipBlockHeaders(read, c, n)
    decreases m
  {
    if m > 0 {
      match read(data)
      case Failure(_) =>
      case Success((_, rest)) =>
        SkipBlockHeadersAdd(read, rest, m - 1, n);
    }
  }

  /** One more header: the `i + 1`-th load runs on the cursor the first `i` left. */
  lemma SkipBlockHeadersStep(read: Reader<BlockInfo>, data: Bytes, i: nat)
    ensures SkipBlockHeaders(read, data, i + 1) ==
            match SkipBlockHeaders(read, data, i)
            case Failure(e) => Failure(e)
            case Success(c) =>
              match read(c)
              case Failure(e) => Failure(e)
              case Success((_, rest)) => Success(rest)
  {
    SkipBlockHeadersAdd(read, data, i, 1);
  }

  /** The header loop of `ListTransactions` as written: `count` iterations,
      each reassigning the cursor, returning on the first failed load. */
  method SkipHeaderVector(read: Reader<BlockInfo>, data: Bytes, count: uint32)
    returns (r: Result<Bytes, LibError>)
    ensures r == SkipBlockHeaders(read, data, count)
  {
    var cursor := data;
    var i := 0;
    while i < count
      invariant 0 <= i <= count
      invariant SkipBlockHeaders(read, data, i) == Success(cursor)
    {
      SkipBlockHeadersStep(read, data, i);
      var loaded := read(cursor);
      if loaded.Failure? {
        SkipBlockHeadersAdd(read, data, i + 1, count - i - 1);
        return Failure(loaded.error);
      }
      cursor := loaded.value.1;
      i := i + 1;
    }
    return Success(cursor);
  }

  // ---------------------------------------------------------------------------
  // Cells to transactions

  /** The transaction loaded from `c`, with its hash overwritten by the cell's
      hash whatever the loader put there. */
  function LoadStampedTransaction(env: Env, c: Cell): (r: Result<Transaction, Error>)
    ensures r.Success? <==> env.loadTransaction(c).Success?
    ensures r.Success? ==> r.value.hash == env.cellHash(c)
    ensures r.Success? ==> r.value.fields == env.loadTransaction(c).value.fields
    ensures r.Failure? ==> r.error == Wrapped(LoadTransactionFromCell, env.loadTransaction(c).error)
  {
    match env.loadTransaction(c)
    case Failure(e) => Failure(Wrapped(LoadTransactionFromCell, e))
    case Success(tx) => Success(tx.(hash := env.cellHash(c)))
  }

  /** Every root loads as a transaction. */
  predicate AllLoad(env: Env, roots: seq<Cell>) {
    forall i :: 0 <= i < |roots| ==> env.loadTransaction(roots[i]).Success?
  }

  /** Some root is the first that does not load, and `err` is its wrapped error. */
  ghost predicate FailsFirstAt(env: Env, roots: seq<Cell>, err: Error) {
    exists j :: 0 <= j < |roots| && AllLoad(env, roots[..j]) && env.loadTransaction(roots[j]).Failure? &&
                err == Wrapped(LoadTransactionFromCell, env.loadTransaction(roots[j]).error)
  }

  /** The transactions of `roots`, one per root and in root order; the first
      root that does not load fails the whole list. */
  function Materialize(env: Env, roots: seq<Cell>): (r: Result<seq<Transaction>, Error>)
    ensures r.Success? <==> AllLoad(env, roots)
    ensures r.Success? ==> |r.value| == |roots|
    ensures r.Success? ==> forall i :: 0 <= i < |roots| ==>
              r.value[i].hash == env.cellHash(roots[i]) &&
              r.value[i].fields == env.loadTransaction(roots[i]).value.fields
    ensures r.Failure? ==> FailsFirstAt(env, roots, r.error)
  {
    if |roots| == 0 then Success([])
    else
      var rest := roots[1..];
      assert forall i :: 1 <= i < |roots| ==> roots[i] == rest[i - 1];
      match LoadStampedTransaction(env, roots[0])
      case Failure(e) =>
        assert roots[..0] == [];
        Failure(e)
      case Success(tx) =>
        match Materialize(env, rest)
        case Failure(e) =>
          assert FailsFirstAt(env, roots, e) by {
            var j :| 0 <= j < |rest| && AllLoad(env, rest[..j]) && env.loadTransaction(rest[j]).Failure? &&
                     e == Wrapped(LoadTransactionFromCell, env.loadTransaction(rest[j]).error);
            assert roots[..j + 1] == [roots[0]] + rest[..j];
            assert roots[j + 1] == rest[j];
          }
          Failure(e)
        case Success(txs) =>
          assert AllLoad(env, roots) by {
            forall i | 0 <= i < |roots| ensures env.loadTransaction(roots[i]).Success? {
              if i > 0 { assert roots[i] == rest[i - 1]; }
            }
          }
          var out := [tx] + txs;
          assert forall i :: 1 <= i < |roots| ==> out[i] == txs[i - 1];
          Success(out)
  }

  /** The list of transactions a bag of cells holds, one per root, or the
      error of the decode or of the first root that does not load. */
  function TransactionsFromBlob(env: Env, blob: Bytes): (r: Result<seq<Transaction>, Error>)
    ensures env.fromBOCMultiRoot(blob).Failure? ==>
              r == Failure(Wrapped(ParseCellList, env.fromBOCMultiRoot(blob).error))
    ensures env.fromBOCMultiRoot(blob).Success? ==> r == Materialize(env, env.fromBOCMultiRoot(blob).value)
    ensures r.Success? <==> env.fromBOCMultiRoot(blob).Success? && AllLoad(env, env.fromBOCMultiRoot(blob).value)
    ensures r.Success? ==> |r.value| == |env.fromBOCMultiRoot(blob).value|
    ensures r.Success? ==> var roots := env.fromBOCMultiRoot(blob).value;
              forall i :: 0 <= i < |roots| ==>
                r.value[i].hash == env.cellHash(roots[i]) &&
                r.value[i].fields == env.loadTransaction(roots[i]).value.fields
    ensures r.Failure? && env.fromBOCMultiRoot(blob).Success? ==>
              FailsFirstAt(env, env.fromBOCMultiRoot(blob).value, r.error)
  {
    match env.fromBOCMultiRoot(blob)
    case Failure(e) => Failure(Wrapped(ParseCellList, e))
    case Success(roots) => Materialize(env, roots)
  }

  /** The transaction a bag of cells holds, loaded from the cell `cell.FromBOC`
      returns, or the error of the decode or of the load. */
  function TransactionFromBlob(env: Env, blob: Bytes): (r: Result<Transaction, Error>)
    ensures env.fromBOC(blob).Failure? ==> r == Failure(Wrapped(ParseCellSingle, env.fromBOC(blob).error))
    ensures env.fromBOC(blob).Success? ==> r == LoadStampedTransaction(env, env.fromBOC(blob).value)
    ensures r.Success? <==> env.fromBOC(blob).Success? && env.loadTransaction(env.fromBOC(blob).value).Success?
    ensures r.Success? ==> r.value.hash == env.cellHash(env.fromBOC(blob).value)
    ensures r.Success? ==> r.value.fields == env.loadTransaction(env.fromBOC(blob).value).value.fields
    ensures env.fromBOC(blob).Success? && env.loadTransaction(env.fromBOC(blob).value).Failure? ==>
              r == Failure(Wrapped(LoadTransactionFromCell, env.loadTransaction(env.fromBOC(blob).value).error))
  {
    match env.fromBOC(blob)
    case Failure(e) => Failure(Wrapped(ParseCellSingle, e))
    case Success(c) => LoadStampedTransaction(env, c)
  }

  // ---------------------------------------------------------------------------
  // Payloads

  /** The cursor a list payload leaves after its header vector: the count is
      the little-endian value of the first four bytes, and that many headers
      are skipped from the fifth byte on. Only the header loader moves it. */
  function ListCursor(env: Env, data: Bytes): (r: Result<Bytes, LibError>)
    requires |data| >= 4
    ensures NeverGrows(env.loadBlockInfo) && r.Success? ==> |r.value| <= |data| - 4
  {
    SkipBlockHeaders(env.loadBlockInfo, data[4..], ReadUint32LE(data))
  }

  /** A `_TransactionsList` payload: header vector, then one byte string
      holding a multi-root bag of cells. Whatever follows that byte string is
      never looked at. */
  function DecodeTransactionsList(env: Env, data: Bytes): (r: Result<seq<Transaction>, Error>)
    ensures |data| <= 4 ==> r == Failure(TooShortResponse)
    ensures |data| > 4 && ListCursor(env, data).Failure? ==>
              r == Failure(Wrapped(LoadBlockFromVector, ListCursor(env, data).error))
    ensures |data| > 4 && ListCursor(env, data).Success? && env.fromBytes(ListCursor(env, data).value).Failure? ==>
              r == Failure(Wrapped(LoadTransactionBytes, env.fromBytes(ListCursor(env, data).value).error))
    ensures r.Success? ==>
              |data| > 4 && ListCursor(env, data).Success? && env.fromBytes(ListCursor(env, data).value).Success?
    ensures |data| > 4 && ListCursor(env, data).Success? && env.fromBytes(ListCursor(env, data).value).Success? ==>
              r == TransactionsFromBlob(env, env.fromBytes(ListCursor(env, data).value).value.0)
  {
    if |data| <= 4 then Failure(TooShortResponse)
    else
      match ListCursor(env, data)
      case Failure(e) => Failure(Wrapped(LoadBlockFromVector, e))
      case Success(cursor) =>
        match env.fromBytes(cursor)
        case Failure(e) => Failure(Wrapped(LoadTransactionBytes, e))
        case Success((blob, _)) => TransactionsFromBlob(env, blob)
  }

  /** A `_TransactionInfo` payload: one block header, a proof byte string that
      is read only to get past it, then the transaction byte string. A failed
      header load is returned without a wrapping message. */
  function DecodeTransactionInfo(env: Env, data: Bytes): (r: Result<Transaction, Error>)
    ensures env.loadBlockInfo(data).Failure? ==> r == Failure(Library(env.loadBlockInfo(data).error))
    ensures env.loadBlockInfo(data).Success? && env.fromBytes(env.loadBlockInfo(data).value.1).Failure? ==>
              r == Failure(Wrapped(LoadProofBytes, env.fromBytes(env.loadBlockInfo(data).value.1).error))
    ensures r.Success? ==> env.loadBlockInfo(data).Success?
    ensures env.loadBlockInfo(data).Success? && env.fromBytes(env.loadBlockInfo(data).value.1).Success? ==>
              var afterProof := env.fromBytes(env.loadBlockInfo(data).value.1).value.1;
              r == match env.fromBytes(afterProof)
                   case Failure(e) => Failure(Wrapped(LoadTransactionBytes, e))
                   case Success((blob, _)) => TransactionFromBlob(env, blob)
  {
    match env.loadBlockInfo(data)
    case Failure(e) => Failure(Library(e))
    case Success((_, afterHeader)) =>
      match env.fromBytes(afterHeader)
      case Failure(e) => Failure(Wrapped(LoadProofBytes, e))
      case Success((_, afterProof)) =>
        match env.fromBytes(afterProof)
        case Failure(e) => Failure(Wrapped(LoadTransactionBytes, e))
        case Success((blob, _)) => TransactionFromBlob(env, blob)
  }

  /** An `_LSError` payload as an error: a failed load is returned as is, code 0
      is the "message not accepted" sentinel, any other code is the decoded
      server error itself. */
  function LSErrorOutcome(env: Env, data: Bytes): (e: Error)
    ensures env.loadLSError(data).Failure? <==> e.Library?
    ensures e.Library? ==> e.cause == env.loadLSError(data).error
    ensures e == MessageNotAccepted <==> env.loadLSError(data).Success? && env.loadLSError(data).value.0.code == 0
    ensures e.Server? <==> env.loadLSError(data).Success? && env.loadLSError(data).value.0.code != 0
    ensures e.Server? ==> e.lsError == env.loadLSError(data).value.0
  {
    match env.loadLSError(data)
    case Failure(err) => Library(err)
    case Success((lsErr, _)) => if lsErr.code == 0 then MessageNotAccepted else Server(lsErr)
  }

  // ---------------------------------------------------------------------------
  // The two operations

  /** `ListTransactions` from the response on: the list on `_TransactionsList`,
      the server's error on `_LSError`, and "unknown response type" otherwise. */
  function ListTransactions(env: Env, resp: Response): (r: Result<seq<Transaction>, Error>)
    ensures resp.typeId == env.transactionsListTag && |resp.data| <= 4 ==> r == Failure(TooShortResponse)
    ensures resp.typeId != env.transactionsListTag && resp.typeId == env.lsErrorTag ==>
              r == Failure(LSErrorOutcome(env, resp.data))
    ensures resp.typeId != env.transactionsListTag && resp.typeId != env.lsErrorTag ==>
              r == Failure(UnknownResponseType)
    ensures r.Success? ==> resp.typeId == env.transactionsListTag && |resp.data| > 4
    ensures resp.typeId == env.transactionsListTag ==> r == DecodeTransactionsList(env, resp.data)
  {
    if resp.typeId == env.transactionsListTag then DecodeTransactionsList(env, resp.data)
    else if resp.typeId == env.lsErrorTag then Failure(LSErrorOutcome(env, resp.data))
    else Failure(UnknownResponseType)
  }

  /** `GetTransaction` from the response on: the transaction on
      `_TransactionInfo`, the server's error on `_LSError`, and "unknown
      response type" otherwise. */
  function GetTransaction(env: Env, resp: Response): (r: Result<Transaction, Error>)
    ensures resp.typeId != env.transactionInfoTag && resp.typeId == env.lsErrorTag ==>
              r == Failure(LSErrorOutcome(env, resp.data))
    ensures resp.typeId != env.transactionInfoTag && resp.typeId != env.lsErrorTag ==>
              r == Failure(UnknownResponseType)
    ensures r.Success? ==> resp.typeId == env.transactionInfoTag
    ensures resp.typeId == env.transactionInfoTag ==> r == DecodeTransactionInfo(env, resp.data)
  {
    if resp.typeId == env.transactionInfoTag then DecodeTransactionInfo(env, resp.data)
    else if resp.typeId == env.lsErrorTag then Failure(LSErrorOutcome(env, resp.data))
    else Failure(UnknownResponseType)
  }
}
