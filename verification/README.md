# Lite-server transaction responses, modelled in Dafny

This project models how the TON client library (`tonutils-go`) decodes the
lite server's answers to `liteServer.getTransactions` and
`liteServer.getOneTransaction`, the response half of `ListTransactions` and
`GetTransaction` in `ton/transactions.go`.

A response is a type tag plus payload bytes. The decoder does three things:

- It dispatches on the tag: the success tag (`_TransactionsList` or
  `_TransactionInfo`), `_LSError`, or anything else.
- It threads a byte cursor through the payload. A list payload is a
  little-endian 32-bit count, that many block headers (skipped), and one
  byte string. A single-transaction payload is one block header, a proof
  byte string (read and dropped), and the transaction byte string.
- It decodes the byte string into bag-of-cells roots. It loads each root as a
  `Transaction` and overwrites the transaction's `Hash` with the root cell's
  hash.

The library routines the decoder calls are not part of the model:
`tl.FromBytes`, `tlb.BlockInfo.Load`, `LSError.Load`, `cell.FromBOC`,
`cell.FromBOCMultiRoot`, `tlb.LoadFromCell` and `Cell.Hash`. Each one is a
function-typed field of `LiteServer.Env`. The three response tags are fields
there too. So every property below holds for any implementation of those
routines. The little-endian count read is modelled concretely
(`Wire.ReadUint32LE`).

Files:

- `results.dfy`: the `Result` type.
- `wire.dfy`: bytes, fixed-width integers, the little-endian count, two's-complement casts.
- `lite_server.dfy`: responses, decoded values, errors, the `Env` of collaborators.
- `transactions.dfy`: the decoders and the two operations.
- `transactions_proofs.dfy`: theorems about whole responses.

Three facts about `ton/transactions.go` shape what the model claims:

- `GetTransaction` calls `cell.FromBOC` and never checks the number of roots.
  The model leaves root counting to that routine.
- Bytes after the transaction byte string are never read, so cutting
  trailing bytes off a well-formed response need not cause an error.
  `ListTransactionsWellFormed` and `GetTransactionWellFormed` hold for every
  trailing `tail`.
- The doc comment at line 33 promises that the oldest transaction comes
  first, but the code does no sorting: it only keeps the order of the decoded
  roots, and that order is what the model proves.

## Model

| member | source | states |
|---|---|---|
| Wire.ReadUint32LE | ton/transactions.go:54 | The count is the unsigned value whose four little-endian bytes are exactly the first four bytes of the payload |
| Wire.ReadEncodeUint32LE | ton/transactions.go:54-55 | Reading back the encoding of any 32-bit count yields that count, whatever bytes follow it |
| Wire.Int32Of | ton/transactions.go:36 | `int32(limit)` keeps the 32 bits (same value modulo 2^32) and is negative exactly when limit ≥ 2^31 |
| Wire.Int64Of | ton/transactions.go:41 | `int64(lt)` keeps the 64 bits and is negative exactly when lt ≥ 2^63 |
| Wire.Int32RoundTrip | ton/transactions.go:36 | Signed and unsigned 32-bit reinterpretation are inverse to each other |
| Wire.Int64RoundTrip | ton/transactions.go:41 | Signed and unsigned 64-bit reinterpretation are inverse to each other |
| Transactions.ListRequest | ton/transactions.go:35-43 | The list request carries the account and hash unchanged; limit and lt keep their bits, so a limit of 2^31 or more is sent negative |
| Transactions.OneRequest | ton/transactions.go:110-117 | The single request carries the block and account unchanged, and lt keeps its bits |
| Transactions.SkipBlockHeaders | ton/transactions.go:57-64 | When the header loader never grows its input, skipping headers never yields a cursor longer than the input |
| Transactions.SkipBlockHeadersAdd | ton/transactions.go:57-64 | Skipping m headers and then n more is the same as skipping m + n; a failure in the first m stops everything |
| Transactions.SkipHeaderVector | ton/transactions.go:57-64 | The Go loop (count iterations, cursor reassigned, early return on error) computes exactly the recursive header skip |
| Transactions.LoadStampedTransaction | ton/transactions.go:79-86 | Succeeds iff the loader does; the fields come from the loader, the hash is the cell's hash whatever the loader set, and failures are wrapped "failed to load transaction from cell" |
| Transactions.Materialize | ton/transactions.go:77-91 | Succeeds iff every root loads; then there is one transaction per root in root order, the i-th with the i-th root's hash and loaded fields; otherwise the error is that of the first root that fails |
| Transactions.TransactionsFromBlob | ton/transactions.go:72-91 | A multi-root decode failure is wrapped "failed to parse cell from transaction bytes". Otherwise the result is the materialised root list: a list is returned iff every root loads, with one entry per root in order carrying that root's hash and loaded fields, and else the error of the first root that fails, wrapped "failed to load transaction from cell" |
| Transactions.TransactionFromBlob | ton/transactions.go:143-155 | A decode failure is wrapped with the (misspelt) "failed to parrse cell…" message. Otherwise a transaction is returned iff the loader accepts the decoded cell: its fields are the loader's and its hash is the cell's hash; a loader failure is wrapped "failed to load transaction from cell" |
| Transactions.ListCursor | ton/transactions.go:54-64 | When the header loader never grows its input, the cursor after the header vector is no longer than the payload minus its 4-byte count |
| Transactions.DecodeTransactionsList | ton/transactions.go:49-91 | Payloads of 4 bytes or fewer give "too short response"; a failed header load gives "failed to load block from vector"; a failed byte-string read gives "failed to load transaction bytes"; otherwise the result depends only on the byte string read at the cursor after the headers |
| Transactions.DecodeTransactionInfo | ton/transactions.go:123-155 | The header, proof and transaction reads happen in that order, each on the previous rest. A header failure is returned unwrapped, a proof failure is wrapped "failed to load proof bytes", and the proof's content is not used |
| Transactions.LSErrorOutcome | ton/transactions.go:92-103 | A failed LSError load is returned as is; the result is ErrMessageNotAccepted iff the decoded code is 0, and otherwise it is the decoded LSError itself |
| Transactions.ListTransactions | ton/transactions.go:48-106 | On `_TransactionsList` with ≤ 4 bytes: "too short response". On `_LSError`: the LSError outcome. On any other tag: "unknown response type". On `_TransactionsList` the result is the list payload decode; a list is returned only for such a payload longer than 4 bytes |
| Transactions.GetTransaction | ton/transactions.go:122-170 | On `_LSError`: the LSError outcome. On any other tag except `_TransactionInfo`: "unknown response type". On `_TransactionInfo` the result is the single-transaction payload decode, and only then is a transaction returned |
| TransactionsProofs.SkipEncodedHeaders | ton/transactions.go:57-64 | A vector of complete header encodings is skipped exactly, leaving the cursor on what follows |
| TransactionsProofs.ListTransactionsWellFormed | ton/transactions.go:49-75 | A payload made of the little-endian count k, k header encodings, a byte-string encoding and any tail decodes to the transactions of that byte string. The exception is a payload of ≤ 4 bytes (for example count 0 and nothing else), which is "too short" |
| TransactionsProofs.GetTransactionWellFormed | ton/transactions.go:123-143 | A payload made of a header, a proof string, a transaction string and any tail decodes to the transaction string's transaction, whatever the proof and tail hold |
| TransactionsProofs.SkipBlockHeadersFailure | ton/transactions.go:57-64 | The header skip fails iff one of the count loads fails, and then with the error of the first load that fails |
| TransactionsProofs.ListTransactionsHeaderFailure | ton/transactions.go:57-63 | If the j-th header load (j below the count) is the first to fail, the call returns that error wrapped "failed to load block from vector" and no list |
| TransactionsProofs.SameErrorPath | ton/transactions.go:156-167 | On the `_LSError` tag, `GetTransaction` fails with the same error that `ListTransactions` does |

## Left out

- Sending the request (`DoRequest`), context cancellation and the transport error passthrough (ton/transactions.go:35-46, 110-120). These are I/O and are not modelled. The model starts from the `(TypeID, Data)` response.
- The TL schema registrations and the serialisation of the request structs (ton/transactions.go:15-31). The serialiser is an external codec; only the field conversions are modelled.
- How `tl.FromBytes`, `BlockInfo.Load`, `LSError.Load`, the bag-of-cells decoders, `tlb.LoadFromCell` and cell hashing work inside. They are parameters (`Env`), and their byte layouts are not described. The well-formedness theorems assume only that a given encoding reads back to a value and leaves the rest (`LiteServer.Encodes`).
- The numeric values of `_TransactionsList`, `_TransactionInfo` and `_LSError`. They are not part of `ton/transactions.go`, so they are `Env` fields. Dispatch tests them in the order of the Go `switch`.
- Proof validation: the proof bytes are read and dropped (ton/transactions.go:135).
- Address encoding (`addr.Workchain()`, `addr.Data()`) and the meaning of the `Transaction` fields. `TxFields` stands for everything the loader fills.
- `int(vecLn)` is taken to be a 64-bit `int`, so every 32-bit count is a loop bound as is. On a 32-bit platform, counts of 2^31 or more would skip the loop; that case is not modelled.
- Error values record their wrapping message and cause, not Go's formatted string. `errors.Is` matching is not modelled.
