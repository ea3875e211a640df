/** Properties of the response decoders that relate several calls or hold for
    whole families of responses: well-formed payloads decode to what they
    carry, and each way a payload can be malformed ends in its own error. */
module TransactionsProofs {
  import opened Results
  import opened Wire
  import opened LiteServer
  import opened Transactions

  /** A header vector whose every entry is a complete block-header encoding is
      skipped entirely, landing exactly on what follows it. */
  lemma {:induction false} SkipEncodedHeaders(read: Reader<BlockInfo>, hs: seq<Bytes>, headers: seq<BlockInfo>, tail: Bytes)
    requires |hs| == |headers|
    requires forall i :: 0 <= i < |hs| ==> Encodes(read, hs[i], headers[i])
    ensures SkipBlockHeaders(read, Concat(hs) + tail, |hs|) == Success(tail)
    decreases |hs|
  {
    if |hs| > 0 {
      var rest := Concat(hs[1..]) + tail;
      assert Concat(hs) + tail == hs[0] + rest;
      assert Encodes(read, hs[0], headers[0]);
      assert read(hs[0] + rest) == Success((headers[0], rest));
      SkipEncodedHeaders(read, hs[1..], headers[1..], tail);
      assert SkipBlockHeaders(read, hs[0] + rest, |hs|) == SkipBlockHeaders(read, rest, |hs[1..]|);
    } else {
      assert Concat(hs) + tail == tail;
    }
  }

  /** A list payload as the server lays it out: the little-endian header
      count, the header encodings, the transaction byte-string encoding, and
      whatever the server appends after it. */
  function ListPayload(hs: seq<Bytes>, blobEnc: Bytes, tail: Bytes): Bytes
    requires |hs| < Two32
  {
    EncodeUint32LE(|hs|) + Concat(hs) + blobEnc + tail
  }

  /** A well-formed list payload decodes to the transactions of its byte
      string, unless the whole payload is four bytes or shorter. The headers'
      values and the trailing bytes play no part in the result. */
  lemma {:induction false} ListTransactionsWellFormed(env: Env, hs: seq<Bytes>, headers: seq<BlockInfo>,
                                                      blobEnc: Bytes, blob: Bytes, tail: Bytes)
    requires |hs| == |headers| < Two32
    requires forall i :: 0 <= i < |hs| ==> Encodes(env.loadBlockInfo, hs[i], headers[i])
    requires Encodes(env.fromBytes, blobEnc, blob)
    ensures |ListPayload(hs, blobEnc, tail)| <= 4 ==>
              ListTransactions(env, Response(env.transactionsListTag, ListPayload(hs, blobEnc, tail))) ==
              Failure(TooShortResponse)
    ensures |ListPayload(hs, blobEnc, tail)| > 4 ==>
              ListTransactions(env, Response(env.transactionsListTag, ListPayload(hs, blobEnc, tail))) ==
              TransactionsFromBlob(env, blob)
  {
    var data := ListPayload(hs, blobEnc, tail);
    if |data| > 4 {
      var after := blobEnc + tail;
      assert data == EncodeUint32LE(|hs|) + (Concat(hs) + after);
      ReadEncodeUint32LE(|hs|, Concat(hs) + after);
      assert data[4..] == Concat(hs) + after;
      SkipEncodedHeaders(env.loadBlockInfo, hs, headers, after);
      assert ListCursor(env, data) == Success(after);
      assert env.fromBytes(after) == Success((blob, tail));
    }
  }

  /** A single-transaction payload laid out as the server sends it (block
      header, proof byte string, transaction byte string, anything after)
      decodes to the transaction of the third part, whatever the proof and the
      trailing bytes hold. */
  lemma {:induction false} GetTransactionWellFormed(env: Env, headerEnc: Bytes, header: BlockInfo, proofEnc: Bytes, proof: Bytes,
                                 blobEnc: Bytes, blob: Bytes, tail: Bytes)
    requires Encodes(env.loadBlockInfo, headerEnc, header)
    requires Encodes(env.fromBytes, proofEnc, proof)
    requires Encodes(env.fromBytes, blobEnc, blob)
    ensures GetTransaction(env, Response(env.transactionInfoTag, headerEnc + proofEnc + blobEnc + tail)) ==
            TransactionFromBlob(env, blob)
  {
    var data := headerEnc + proofEnc + blobEnc + tail;
    assert data == headerEnc + (proofEnc + (blobEnc + tail));
    assert env.loadBlockInfo(data) == Success((header, proofEnc + (blobEnc + tail)));
    assert env.fromBytes(proofEnc + (blobEnc + tail)) == Success((proof, blobEnc + tail));
    assert env.fromBytes(blobEnc + tail) == Success((blob, tail));
  }

  /** The header skip fails exactly when some header load fails, and then with
      the error of the first failing load. */
  lemma {:induction false} SkipBlockHeadersFailure(read: Reader<BlockInfo>, data: Bytes, count: nat)
    ensures SkipBlockHeaders(read, data, count).Failure? <==>
            exists j :: 0 <= j < count && HeaderLoadFails(read, data, j)
    ensures forall j :: 0 <= j < count && HeaderLoadFails(read, data, j) ==>
              SkipBlockHeaders(read, data, count).error == read(SkipBlockHeaders(read, data, j).value).error
  {
    forall j | 0 <= j < count && HeaderLoadFails(read, data, j)
      ensures SkipBlockHeaders(read, data, count) == Failure(read(SkipBlockHeaders(read, data, j).value).error)
    {
      SkipBlockHeadersAdd(read, data, j + 1, count - j - 1);
      SkipBlockHeadersStep(read, data, j);
    }
    if SkipBlockHeaders(read, data, count).Failure? {
      var j := FirstFailingHeader(read, data, count);
    }
  }

  /** The `j`-th header load (counting from 0) is the first to fail: the `j`
      before it succeeded and it did not. */
  ghost predicate HeaderLoadFails(read: Reader<BlockInfo>, data: Bytes, j: nat) {
    SkipBlockHeaders(read, data, j).Success? && read(SkipBlockHeaders(read, data, j).value).Failure?
  }

  /** A failing skip has a first failing header before `count`. */
  lemma {:induction false} FirstFailingHeader(read: Reader<BlockInfo>, data: Bytes, count: nat) returns (j: nat)
    requires SkipBlockHeaders(read, data, count).Failure?
    ensures j < count && HeaderLoadFails(read, data, j)
    decreases count
  {
    var k: nat := count - 1;
    SkipBlockHeadersStep(read, data, k);
    if SkipBlockHeaders(read, data, k).Failure? {
      j := FirstFailingHeader(read, data, k);
    } else {
      j := k;
    }
  }

  /** In a list payload, the first header that does not load fails the whole
      call with that load's error, and no list is returned. */
  lemma ListTransactionsHeaderFailure(env: Env, data: Bytes, j: nat)
    requires |data| > 4 && j < ReadUint32LE(data)
    requires HeaderLoadFails(env.loadBlockInfo, data[4..], j)
    ensures ListTransactions(env, Response(env.transactionsListTag, data)) ==
            Failure(Wrapped(LoadBlockFromVector,
                            env.loadBlockInfo(SkipBlockHeaders(env.loadBlockInfo, data[4..], j).value).error))
  {
    SkipBlockHeadersFailure(env.loadBlockInfo, data[4..], ReadUint32LE(data));
  }

  /** On `_LSError` both operations return the same error. */
  lemma SameErrorPath(env: Env, data: Bytes)
    requires env.lsErrorTag != env.transactionsListTag && env.lsErrorTag != env.transactionInfoTag
    ensures ListTransactions(env, Response(env.lsErrorTag, data)).Failure?
    ensures GetTransaction(env, Response(env.lsErrorTag, data)).Failure?
    ensures ListTransactions(env, Response(env.lsErrorTag, data)).error ==
            GetTransaction(env, Response(env.lsErrorTag, data)).error
  {
  }
}
