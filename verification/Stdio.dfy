/** What the framers see of a `FILE`: bytes still to be read, and bytes written to it. */
module Stdio {
  import opened Bytes

  class File {
    var unread: seq<byte>
    var written: seq<byte>

    constructor (unread: seq<byte>)
      ensures this.unread == unread && written == []
    {
      this.unread, written := unread, [];
    }

    /** `getc`: the next byte, or -1. */
    method GetC() returns (c: int)
      modifies `unread
      ensures if old(unread) == [] then c == -1 && unread == [] else c == old(unread)[0] && unread == old(unread)[1..]
    {
      if unread == [] {
        return -1;
      }
      c := unread[0];
      unread := unread[1..];
    }

    /** `fread`: up to `count` bytes, fewer only at the end of the stream. */
    method FRead(count: nat) returns (b: seq<byte>)
      modifies `unread
      ensures |b| == Min(count, |old(unread)|) && b + unread == old(unread)
    {
      var n := Min(count, |unread|);
      b := unread[..n];
      unread := unread[n..];
    }

    /** `fwrite` */
    method FWrite(b: seq<byte>)
      modifies `written
      ensures written == old(written) + b
    {
      written := written + b;
    }
  }
}
