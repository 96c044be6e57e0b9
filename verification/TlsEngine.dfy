/**
  The TLS engine behind one handle: the `SSL` object with its two memory BIOs,
  reduced to record framing. Its view is the `Tls` value of `Streams`.
*/
module TlsEngines {
  import opened Basics
  import opened Records
  import opened Streams

  class TlsEngine {
    var initFinished: bool
    var input: seq<byte>     // the read BIO
    var current: seq<byte>   // what `SSL_read` has not returned of the last decoded record
    var output: seq<byte>    // the write BIO
    ghost var fed: seq<byte>
    ghost var written: seq<byte>

    constructor ()
      ensures View() == NO_TLS
    {
      initFinished := false;
      input, current, output := [], [], [];
      fed, written := [], [];
    }

    /** Once the handshake is over, arrived bytes count as the plaintext they decode to. */
    ghost function View(): Tls
      reads this
    {
      if initFinished then
        NO_TLS.(initFinished := true, plain := current + Payload(input), partial := Rest(input),
                output := output, fed := fed, written := written)
      else NO_TLS.(input := input, output := output, fed := fed, written := written)
    }

    /** `BIO_write` on the read BIO. */
    method Receive(data: seq<byte>)
      modifies this
      ensures View() == Feed(old(View()), data)
    {
      Refragment(input, data);
      Regroup(current, Payload(input), Payload(Rest(input) + data));
      input := input + data;
      if initFinished { fed := fed + data; }
    }

    /** `BIO_read` on the write BIO, into a 512-byte buffer. */
    method TakeOutput() returns (chunk: seq<byte>)
      modifies this
      ensures chunk == Cut(old(output))
      ensures View() == old(View()).(output := old(output)[|chunk|..]) && output == old(output)[|chunk|..]
    {
      chunk := Cut(output);
      output := output[|chunk|..];
    }

    /** `SSL_write`. */
    method Write(message: seq<byte>) returns (size: int)
      modifies this
      ensures (View(), size) == SslWrite(old(View()), message)
    {
      if !initFinished { return -1; }
      output, written := output + Encode(message), written + message;
      return |message|;
    }

    /** The engine's part of `SSL_do_handshake`. */
    method Handshake(hs: Handshake, verified: bool) returns (outcome: Outcome)
      requires !initFinished
      modifies this
      ensures (View(), outcome) == Advance(old(View()), hs, verified)
    {
      outcome := if verified then hs.outcome else Fatal;
      input := input[if hs.consumed <= |input| then hs.consumed else |input|..];
      output := output + hs.emitted;
      if outcome == Done {
        initFinished, current := true, [];
        fed := input;
        assert current + Payload(input) == Payload(input);
      }
    }

    /** A fresh engine for a connecting client, its first flight queued. */
    method Renew(hello: seq<byte>)
      modifies this
      ensures View() == NO_TLS.(output := hello)
    {
      initFinished := false;
      input, current, output := [], [], hello;
      fed, written := [], [];
    }

    /**
      `SSL_read` into the buffer from `index` on: at most one record's worth, and
      nothing only if no plaintext is available.
    */
    method ReadInto(buffer: array<byte>, index: nat) returns (size: int)
      requires initFinished && index < buffer.Length
      modifies this, buffer
      ensures size <= buffer.Length - index
      ensures buffer[..index] == old(buffer[..index])
      ensures size <= 0 <==> old(View()).plain == []
      ensures size <= 0 ==> View() == old(View())
      ensures size > 0 ==>
                && View() == old(View()).(plain := View().plain)
                && buffer[index..index + size] + View().plain == old(View()).plain
    {
      while current == [] && Complete(input)
        invariant initFinished && View() == old(View())
        invariant buffer[..] == old(buffer[..])
        decreases |input|
      {
        assert [] + Payload(input) == First(input) + Payload(After(input));
        current, input := First(input), After(input);
      }
      if current == [] { return -1; }
      size := if |current| <= buffer.Length - index then |current| else buffer.Length - index;
      ghost var plain := current + Payload(input);
      forall i | 0 <= i < size { buffer[index + i] := current[i]; }
      assert buffer[index..index + size] == current[..size];
      assert plain == current[..size] + (current[size..] + Payload(input));
      current := current[size..];
    }
  }
}
