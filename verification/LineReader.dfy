/** The reconnecting reader: whole lines only, over any sequence of connections. */
module LineReader {
  import opened Lines

  /** What the next dial finds: no producer, or a connection that carries these bytes and then ends. */
  datatype Dial = Refused | Connected(bytes: string)

  /** The streams of the connections that will be made. */
  function Streams(net: seq<Dial>): seq<string> {
    if net == [] then []
    else (if net[0].Connected? then [net[0].bytes] else []) + Streams(net[1..])
  }

  /** The whole lines that the rest of a connection and the connections after it will bring. */
  function Remaining(unread: string, net: seq<Dial>): string {
    Whole(unread) + WholeAll(Streams(net))
  }

  lemma TakeLine(line: string, unread: string, net: seq<Dial>)
    requires line != "" && line[|line| - 1] == '\n'
    ensures Remaining(line + unread, net) == line + Remaining(unread, net)
  {
    WholeLine(line, unread);
  }

  lemma DropTail(unread: string, net: seq<Dial>)
    requires NoNewline(unread)
    ensures Remaining(unread, net) == Remaining("", net)
  {
    WholeNoNewline(unread);
  }

  lemma NextConnection(dial: Dial, rest: seq<Dial>)
    ensures Remaining("", [dial] + rest) == Remaining(if dial.Connected? then dial.bytes else "", rest)
  {
    StreamsStep(dial, rest);
  }

  class Reader {
    var net: seq<Dial>      // the connections still to come
    var connected: bool
    var unread: string      // bytes of the current connection not consumed yet
    var pending: string     // complete-line bytes not copied out yet
    ghost var returned: string
    ghost const promised: string

    constructor (net: seq<Dial>)
      ensures Valid() && returned == "" && promised == WholeAll(Streams(net))
    {
      this.net := net;
      connected, unread, pending, returned := false, "", "", "";
      promised := WholeAll(Streams(net));
    }

    /** The whole lines still to be returned. */
    ghost function Owed(): string
      reads this
    {
      pending + Remaining(unread, net)
    }

    /** Nothing is lost, repeated or spliced: what was returned and what is owed make up the promise. */
    ghost predicate Valid()
      reads this
    {
      (!connected ==> unread == "") && returned + Owed() == promised
    }

    /** Dials until a producer answers, or reports that none ever will. */
    method Connect() returns (ok: bool)
      requires Valid() && !connected && pending == ""
      modifies this`net, this`connected, this`unread
      ensures Valid() && connected == ok && Owed() == old(Owed())
      ensures |net| <= |old(net)| && (ok ==> |net| < |old(net)|) && (!ok ==> Owed() == "")
    {
      while net != []
        invariant Valid() && !connected && Owed() == old(Owed()) && |net| <= |old(net)|
        decreases |net|
      {
        var dial := net[0];
        assert net == [dial] + net[1..];
        net := net[1..];
        NextConnection(dial, net);
        if dial.Connected? {
          connected, unread := true, dial.bytes;
          return true;
        }
      }
      return false;
    }

    /** Takes the next line off the current connection, if the connection reaches its newline. */
    method ReadLine() returns (line: string, ok: bool)
      requires connected
      modifies this`unread
      ensures ok ==> line != "" && line[|line| - 1] == '\n' && NoNewline(line[..|line| - 1])
      ensures ok ==> old(unread) == line + unread
      ensures !ok ==> unread == old(unread) && NoNewline(unread)
    {
      var i := 0;
      while i < |unread|
        invariant 0 <= i <= |unread| && NoNewline(unread[..i]) && unread == old(unread)
      {
        if unread[i] == '\n' {
          line := unread[..i + 1];
          assert line[..|line| - 1] == unread[..i];
          unread := unread[i + 1..];
          return line, true;
        }
        i := i + 1;
      }
      return "", false;
    }

    /** Reads, and reconnects as needed, until a whole line is pending or none ever will be. */
    method NextLine() returns (ok: bool)
      requires Valid() && pending == ""
      modifies this`net, this`connected, this`unread, this`pending
      ensures Valid() && Owed() == old(Owed())
      ensures if ok then pending != "" else Owed() == ""
    {
      while pending == ""
        invariant Valid() && Owed() == old(Owed())
        decreases |net|, connected, |unread| - |pending|
      {
        if !connected {
          var dialled := Connect();
          if !dialled {
            return false;
          }
        }
        var line, whole := ReadLine();
        if whole {
          TakeLine(line, unread, net);
          pending := line;
          return true;
        }
        // A partial last line is dropped with its connection.
        DropTail(unread, net);
        connected, unread := false, "";
      }
      return true;
    }

    /**
     * Returns at most `n` bytes of whole lines, and fails only when no connection will ever
     * bring another whole line.
     */
    method Read(n: nat) returns (bytes: string, ok: bool)
      requires Valid()
      modifies this
      ensures Valid() && returned == old(returned) + bytes && returned <= promised
      ensures |bytes| <= n && (ok && n > 0 ==> bytes != "")
      ensures !ok ==> bytes == "" && returned == promised
    {
      if pending == "" {
        ok := NextLine();
        if !ok {
          return "", false;
        }
      }
      var k := if n < |pending| then n else |pending|;
      bytes := pending[..k];
      CopyOut(returned, pending, Remaining(unread, net), k);
      returned := returned + bytes;
      pending := pending[k..];
      return bytes, true;
    }
  }

  /** Moving the first `k` pending bytes to the returned ones leaves the whole unchanged. */
  lemma CopyOut(returned: string, pending: string, rest: string, k: nat)
    requires k <= |pending|
    ensures returned + (pending + rest) == (returned + pending[..k]) + (pending[k..] + rest)
    ensures returned + pending[..k] <= returned + (pending + rest)
  {
  }

  lemma StreamsStep(dial: Dial, rest: seq<Dial>)
    ensures WholeAll(Streams([dial] + rest))
         == (if dial.Connected? then Whole(dial.bytes) else "") + WholeAll(Streams(rest))
  {
    assert ([dial] + rest)[1..] == rest;
    if dial.Connected? {
      assert ([dial.bytes] + Streams(rest))[1..] == Streams(rest);
    } else {
      assert [] + Streams(rest) == Streams(rest);
    }
  }
}
