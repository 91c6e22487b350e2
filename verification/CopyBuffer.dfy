/** The loop that copies a response body from the backend to the client. */
module CopyBuffer {

  import opened Common

  datatype ReadError = EndOfFile | Canceled | Failed

  /** What one Read call returns: some bytes, possibly together with an error. */
  datatype ReadResult = ReadResult(data: seq<Byte>, more: bool, error: ReadError)

  /** How the destination takes the chunk of one read: how much of it, and whether Write reports an error. */
  datatype WriteResult = WriteResult(accepted: nat, failed: bool)

  datatype CopyError = NoError | ReadFailed(error: ReadError) | WriteFailed | ShortWrite

  function Min(a: nat, b: nat): nat { if a < b then a else b }

  /** All bytes of a list of reads. */
  function Data(results: seq<ReadResult>): seq<Byte> {
    if results == [] then [] else Data(results[..|results| - 1]) + results[|results| - 1].data
  }

  /** Index of the read that reports an error or the end. */
  predicate EndsAt(results: seq<ReadResult>, k: nat) {
    k < |results| && !results[k].more && forall j :: 0 <= j < k ==> results[j].more
  }

  /** The destination takes the whole chunk of read `j` without an error. */
  predicate Whole(results: seq<ReadResult>, writes: nat -> WriteResult, j: nat)
    requires j < |results|
  {
    results[j].data == [] || (|results[j].data| <= writes(j).accepted && !writes(j).failed)
  }

  /** The first read from `i` on, before `n`, whose chunk is not taken whole, or `n`. */
  function Refused(results: seq<ReadResult>, writes: nat -> WriteResult, i: nat, n: nat): (j: nat)
    requires i <= n <= |results|
    ensures i <= j <= n && (j < n ==> !Whole(results, writes, j))
    ensures forall m :: i <= m < j ==> Whole(results, writes, m)
    decreases n - i
  {
    if i == n || !Whole(results, writes, i) then i else Refused(results, writes, i + 1, n)
  }

  class Destination {
    var data: seq<Byte>

    method Write(chunk: seq<Byte>, result: WriteResult) returns (n: nat, failed: bool)
      modifies this
      ensures n == Min(result.accepted, |chunk|) && failed == result.failed
      ensures data == old(data) + chunk[..n]
    {
      n, failed := Min(result.accepted, |chunk|), result.failed;
      data := data + chunk[..n];
    }
  }

  lemma DataNext(results: seq<ReadResult>, i: nat)
    requires i < |results|
    ensures Data(results[..i + 1]) == Data(results[..i]) + results[i].data
  {
    assert results[..i + 1][..i] == results[..i];
  }

  /** Copies until the source ends or something fails.  What has arrived is always the start of the source's data, and
      `written` tells how much; there is no error exactly when all of it arrived and the source ended regularly. */
  method Copy(dst: Destination, results: seq<ReadResult>, writes: nat -> WriteResult, ghost k: nat)
      returns (written: nat, error: CopyError)
    requires EndsAt(results, k)
    modifies dst
    ensures written <= |Data(results[..k + 1])| && dst.data == old(dst.data) + Data(results[..k + 1])[..written]
    ensures error == NoError <==> Refused(results, writes, 0, k + 1) == k + 1 && results[k].error == EndOfFile
    ensures var j := Refused(results, writes, 0, k + 1);
            if j == k + 1 then
              written == |Data(results[..k + 1])| && error == if results[k].error == EndOfFile then NoError else ReadFailed(results[k].error)
            else
              && written == |Data(results[..j])| + Min(writes(j).accepted, |results[j].data|)
              && error == if writes(j).failed then WriteFailed else ShortWrite
  {
    hide Data;
    written := 0;
    var i := 0;
    DataStarts(results);
    while true
      invariant 0 <= i <= k && Refused(results, writes, i, k + 1) == Refused(results, writes, 0, k + 1)
      invariant written == |Data(results[..i])| && dst.data == old(dst.data) + Data(results[..i])
      decreases k - i
    {
      var read := results[i];
      DataNext(results, i);
      StartsWith(results, i + 1, k + 1);
      if |read.data| > 0 {
        var nw, failed := dst.Write(read.data, writes(i));
        written := written + nw;
        assert Data(results[..i]) + read.data[..nw] == Data(results[..k + 1])[..written];
        if failed {
          return written, WriteFailed;
        }
        if nw != |read.data| {
          return written, ShortWrite;
        }
      }
      if !read.more {
        return written, if read.error == EndOfFile then NoError else ReadFailed(read.error);
      }
      i := i + 1;
    }
  }

  lemma DataStarts(results: seq<ReadResult>)
    ensures Data(results[..0]) == []
  {}

  lemma {:induction false} StartsWith(results: seq<ReadResult>, i: nat, n: nat)
    requires i <= n <= |results|
    ensures Data(results[..i]) <= Data(results[..n])
  {
    if i < n {
      StartsWith(results, i, n - 1);
      DataNext(results, n - 1);
    }
  }
}
