/** The SPI bus as the driver sees it: the frames it sends and the replies a
    transport gives back. Opening the SPI channel and configuring its clock
    belong to the IOIO library and are not part of this model; the channel
    is represented by a script of replies, one per transaction. */
module Bus {

  /** What one transaction brings back: the bytes clocked in, or the loss of
      the connection (a ConnectionLostException). */
  datatype Reply = Bytes(data: seq<bv8>) | Lost

  /** One bus transaction as the driver issues it: the first `writeSize`
      bytes of the write buffer are sent, `totalSize` bytes are clocked and the
      last `readSize` of them are kept; `completed` is false when the
      connection was lost. */
  datatype Transaction = Transaction(
    written: seq<bv8>, writeSize: nat, totalSize: nat, readSize: nat, completed: bool)

  /** The reply to the next transaction; a channel with nothing left to
      reply is a lost connection. */
  function Next(replies: seq<Reply>): Reply
  {
    if replies == [] then Lost else replies[0]
  }

  /** The replies left after one transaction. */
  function Rest(replies: seq<Reply>): seq<Reply>
  {
    if replies == [] then [] else replies[1..]
  }

  /** The `n` bytes a read keeps from a reply: as many of the reply's bytes as
      there are, then zero bytes (the bus always clocks exactly `n`). */
  function Fit(data: seq<bv8>, n: nat): seq<bv8>
  {
    seq(n, i requires 0 <= i < n => if i < |data| then data[i] else 0)
  }

  /** An open SPI channel. */
  class Spi {
    /** The replies the channel will give, in order. */
    var replies: seq<Reply>

    constructor (replies: seq<Reply>)
      ensures this.replies == replies
    {
      this.replies := replies;
    }

    /** Sends `writeSize` bytes of `writeData` in a transaction of `totalSize`
        bytes and stores the last `readSize` bytes clocked in at the start of
        `readData`. On a lost connection nothing is stored and `ok` is false. */
    method WriteRead(writeData: array<bv8>, writeSize: nat, totalSize: nat,
                     readData: array<bv8>, readSize: nat) returns (ok: bool)
      requires writeSize <= writeData.Length && readSize <= readData.Length
      modifies this, readData
      ensures ok == Next(old(replies)).Bytes?
      ensures replies == Rest(old(replies))
      ensures ok ==> readData[..readSize] == Fit(Next(old(replies)).data, readSize)
      ensures ok ==> readData[readSize..] == old(readData[readSize..])
      ensures !ok ==> readData[..] == old(readData[..])
    {
      var reply := Next(replies);
      replies := Rest(replies);
      ok := reply.Bytes?;
      if ok {
        var bytes := Fit(reply.data, readSize);
        forall i | 0 <= i < readSize {
          readData[i] := bytes[i];
        }
      }
    }
  }
}
