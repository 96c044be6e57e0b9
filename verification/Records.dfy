/**
  The byte streams of the TLS pump: the record framing of the engine behind
  `SSL_read` and `SSL_write` (section 6.2.1 of RFC 5246, with the cipher taken
  as the identity), and the two ways the extension cuts a byte stream into
  pieces, 512-byte socket writes and 256-byte read-callback chunks.
*/
module Records {
  import opened Basics

  const HEADER := 5
  const MAX_FRAGMENT := 16384
  const WRITE_CHUNK := 512
  const READ_CHUNK := 256

  // ---------- record framing ----------

  function Header(n: nat): (header: seq<byte>)
    requires n <= MAX_FRAGMENT
    ensures |header| == HEADER && (header[3] as int) * 256 + header[4] as int == n
  {
    [23, 3, 2, n / 256, n % 256]
  }

  /** The framed form of one plaintext message, as `SSL_write` queues it. */
  function Encode(message: seq<byte>): (wire: seq<byte>) {
    if message == [] then []
    else if |message| <= MAX_FRAGMENT then Header(|message|) + message
    else Header(MAX_FRAGMENT) + message[..MAX_FRAGMENT] + Encode(message[MAX_FRAGMENT..])
  }

  function FragmentLength(input: seq<byte>): nat
    requires HEADER <= |input|
  {
    (input[3] as int) * 256 + input[4] as int
  }

  /** The input starts with a record that has arrived in full. */
  predicate Complete(input: seq<byte>) {
    HEADER <= |input| && HEADER + FragmentLength(input) <= |input|
  }

  function First(input: seq<byte>): seq<byte>
    requires Complete(input)
  {
    input[HEADER..HEADER + FragmentLength(input)]
  }

  function After(input: seq<byte>): (rest: seq<byte>)
    requires Complete(input)
    ensures |rest| < |input|
  {
    input[HEADER + FragmentLength(input)..]
  }

  /** The plaintext of every record that has arrived in full. */
  function Payload(input: seq<byte>): (plain: seq<byte>)
    decreases |input|
  {
    if Complete(input) then First(input) + Payload(After(input)) else []
  }

  /** The bytes of the record that is still incomplete. */
  function Rest(input: seq<byte>): (rest: seq<byte>)
    decreases |input|
  {
    if Complete(input) then Rest(After(input)) else input
  }

  /** Decoding piecewise, keeping the incomplete tail, loses and reorders nothing. */
  lemma {:induction false} Refragment(a: seq<byte>, b: seq<byte>)
    ensures Payload(a + b) == Payload(a) + Payload(Rest(a) + b)
    ensures Rest(a + b) == Rest(Rest(a) + b)
    decreases |a|
  {
    if Complete(a) {
      assert First(a + b) == First(a);
      assert After(a + b) == After(a) + b;
      Refragment(After(a), b);
    }
  }

  lemma {:induction false} RestIsIncomplete(a: seq<byte>)
    ensures !Complete(Rest(a)) && Payload(Rest(a)) == [] && Rest(Rest(a)) == Rest(a)
    decreases |a|
  {
    if Complete(a) { RestIsIncomplete(After(a)); }
  }

  lemma EncodeOneRecord(message: seq<byte>, n: nat)
    requires message != []
    requires n == if |message| <= MAX_FRAGMENT then |message| else MAX_FRAGMENT
    ensures Encode(message) == Header(n) + message[..n] + Encode(message[n..])
  {
    if n == |message| {
      assert message[..n] == message && message[n..] == [];
    }
  }

  lemma DecodeOneRecord(fragment: seq<byte>, more: seq<byte>)
    requires |fragment| <= MAX_FRAGMENT
    ensures var wire := Header(|fragment|) + fragment + more;
            Payload(wire) == fragment + Payload(more) && Rest(wire) == Rest(more)
  {
    var wire := Header(|fragment|) + fragment + more;
    assert wire[3] == Header(|fragment|)[3] && wire[4] == Header(|fragment|)[4];
    assert FragmentLength(wire) == |fragment|;
    assert First(wire) == fragment;
    assert After(wire) == more;
  }

  /** Decoding undoes encoding, whatever follows on the wire. */
  lemma {:induction false} DecodeEncode(message: seq<byte>, tail: seq<byte>)
    ensures Payload(Encode(message) + tail) == message + Payload(tail)
    ensures Rest(Encode(message) + tail) == Rest(tail)
    decreases |message|
  {
    if message == [] {
      assert Encode(message) + tail == tail;
    } else {
      var n := if |message| <= MAX_FRAGMENT then |message| else MAX_FRAGMENT;
      var rest := message[n..];
      EncodeOneRecord(message, n);
      Regroup(Header(n) + message[..n], Encode(rest), tail);
      DecodeOneRecord(message[..n], Encode(rest) + tail);
      DecodeEncode(rest, tail);
      Regroup(message[..n], rest, Payload(tail));
      assert message == message[..n] + rest;
    }
  }

  /** What has been decoded from a prefix of the wire is a prefix of what the wire decodes to. */
  lemma PayloadPrefix(part: seq<byte>, whole: seq<byte>)
    requires part <= whole
    ensures Payload(part) <= Payload(whole)
  {
    assert whole == part + whole[|part|..];
    Refragment(part, whole[|part|..]);
  }

  // ---------- cutting streams into pieces ----------

  /** What one `BIO_read` into the 512-byte buffer returns. */
  function Cut(output: seq<byte>): (chunk: seq<byte>)
    ensures chunk <= output && |chunk| <= WRITE_CHUNK
    ensures output != [] ==> chunk != []
  {
    if |output| <= WRITE_CHUNK then output else output[..WRITE_CHUNK]
  }

  /** The pieces in which a full drain hands `output` to the socket. */
  function WriteChunks(output: seq<byte>): (chunks: seq<seq<byte>>)
    decreases |output|
  {
    if output == [] then [] else [Cut(output)] + WriteChunks(output[|Cut(output)|..])
  }

  lemma {:induction false} WriteChunksShape(output: seq<byte>)
    ensures Flatten(WriteChunks(output)) == output
    ensures |WriteChunks(output)| == (|output| + 511) / 512
    ensures forall i :: 0 <= i < |WriteChunks(output)| - 1 ==> |WriteChunks(output)[i]| == 512
    ensures output != [] ==> 0 < |WriteChunks(output)[|WriteChunks(output)| - 1]| <= 512
    decreases |output|
  {
    if output != [] {
      var rest := output[|Cut(output)|..];
      WriteChunksShape(rest);
      assert WriteChunks(output) == [Cut(output)] + WriteChunks(rest);
      assert WriteChunks(output)[1..] == WriteChunks(rest);
      assert output == Cut(output) + rest;
    }
  }

  /** The pieces in which one read event hands the available plaintext to the read callback. */
  function ReadChunks(plain: seq<byte>): (chunks: seq<seq<byte>>)
    decreases |plain|
  {
    if |plain| < READ_CHUNK then [plain]
    else [plain[..READ_CHUNK]] + ReadChunks(plain[READ_CHUNK..])
  }

  lemma {:induction false} ReadChunksShape(plain: seq<byte>)
    ensures Flatten(ReadChunks(plain)) == plain
    ensures |ReadChunks(plain)| == |plain| / 256 + 1
    ensures forall i :: 0 <= i < |ReadChunks(plain)| - 1 ==> |ReadChunks(plain)[i]| == 256
    ensures |ReadChunks(plain)[|ReadChunks(plain)| - 1]| == |plain| % 256
    decreases |plain|
  {
    if |plain| < READ_CHUNK {
      assert Flatten(ReadChunks(plain)) == plain + Flatten<byte>([]);
    } else {
      var rest := plain[READ_CHUNK..];
      ReadChunksShape(rest);
      assert ReadChunks(plain)[1..] == ReadChunks(rest);
      assert plain == plain[..READ_CHUNK] + rest;
    }
  }
}
