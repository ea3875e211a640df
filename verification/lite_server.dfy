/** The values a lite-server response decodes into, the error values the
    decoder returns, and the library collaborators it calls. The collaborators
    (`tl.FromBytes`, `tlb.BlockInfo.Load`, `LSError.Load`, `cell.FromBOC`,
    `cell.FromBOCMultiRoot`, `tlb.LoadFromCell`, `Cell.Hash`) live outside the
    modelled code, so they are fields of an `Env`: every property proved about
    the decoder holds whatever those functions compute. */
module LiteServer {
  import opened Results
  import opened Wire

  /** A response type tag (`resp.TypeID`): the TL constructor id of the
      payload that follows. */
  type TypeId = uint32

  /** A response as the transport hands it over: a tag and the payload bytes. */
  datatype Response = Response(typeId: TypeId, data: Bytes)

  /** `tlb.BlockInfo`: a block id. The decoder only skips over these. */
  datatype BlockInfo = BlockInfo(workchain: int32, shard: int64, seqNo: uint32,
                                 rootHash: Bytes, fileHash: Bytes)

  /** `LSError`: an error reported by the lite server. */
  datatype LSError = LSError(code: int32, text: string)

  /** A handle on one cell of a decoded bag of cells. The decoder never looks
      inside a cell: it only hands it to the loader and to the hash function,
      so the handle's content is left to the cell library. */
  datatype Cell = Cell(handle: nat)

  /** Everything `tlb.LoadFromCell` fills in a `tlb.Transaction` besides its
      hash. Its layout belongs to the loader and is not part of this model. */
  datatype TxFields = TxFields(raw: Bytes)

  /** `tlb.Transaction`: the loaded fields and the transaction hash. */
  datatype Transaction = Transaction(fields: TxFields, hash: Bytes)

  /** An error produced by a library collaborator; its content is theirs. */
  datatype LibError = LibError(message: string)

  /** The error values the two operations return. `Wrapped(c, e)` is Go's
      `fmt.Errorf("<c>: %w", e)`: the cause stays reachable by `errors.Is`. */
  datatype Error =
    | TooShortResponse                       // errors.New("too short response")
    | UnknownResponseType                    // errors.New("unknown response type")
    | MessageNotAccepted                     // the ErrMessageNotAccepted sentinel
    | Server(lsError: LSError)               // a decoded LSError returned as the error
    | Library(cause: LibError)               // a collaborator's error returned as is
    | Wrapped(context: string, cause: LibError)

  const LoadBlockFromVector := "failed to load block from vector"
  const LoadTransactionBytes := "failed to load transaction bytes"
  const LoadProofBytes := "failed to load proof bytes"
  const ParseCellList := "failed to parse cell from transaction bytes"
  /** The single-transaction path spells its message differently; kept verbatim. */
  const ParseCellSingle := "failed to parrse cell from transaction bytes"
  const LoadTransactionFromCell := "failed to load transaction from cell"

  /** A reader in the style of the library: a value and the rest of the input. */
  type Reader<T> = Bytes -> Result<(T, Bytes), LibError>

  /** The library collaborators and the response tags they are registered under. */
  datatype Env = Env(
    transactionsListTag: TypeId,                          // _TransactionsList
    transactionInfoTag: TypeId,                           // _TransactionInfo
    lsErrorTag: TypeId,                                   // _LSError
    loadBlockInfo: Reader<BlockInfo>,                     // (*tlb.BlockInfo).Load
    fromBytes: Reader<Bytes>,                             // tl.FromBytes
    loadLSError: Reader<LSError>,                         // (*LSError).Load
    fromBOC: Bytes -> Result<Cell, LibError>,             // cell.FromBOC
    fromBOCMultiRoot: Bytes -> Result<seq<Cell>, LibError>, // cell.FromBOCMultiRoot
    loadTransaction: Cell -> Result<Transaction, LibError>, // tlb.LoadFromCell into a Transaction
    cellHash: Cell -> Bytes                               // (*cell.Cell).Hash
  )

  /** A reader never hands back more input than it was given. */
  ghost predicate NeverGrows<T(!new)>(read: Reader<T>) {
    forall b: Bytes :: read(b).Success? ==> |read(b).value.1| <= |b|
  }

  /** `enc` is one complete encoding for `read`: reading it, whatever follows,
      yields `v` and leaves exactly what follows. */
  ghost predicate Encodes<T(!new)>(read: Reader<T>, enc: Bytes, v: T) {
    forall tail: Bytes :: read(enc + tail) == Success((v, tail))
  }
}
