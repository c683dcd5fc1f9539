/**
 * The host's Base64 codec for credential salts. Only its contract matters to
 * the model: decoding inverts encoding, and decoding can fail on malformed
 * text. The alphabet and padding are not modelled; this stand-in writes one
 * character per byte and accepts exactly the texts whose characters are bytes.
 */
module Base64 {
  import opened Wrappers

  newtype byte = x: int | 0 <= x < 256
  type Bytes = seq<byte>

  function Encode(b: Bytes): string {
    seq(|b|, i requires 0 <= i < |b| => (b[i] as int) as char)
  }

  /** Text that the decoder accepts. */
  predicate WellFormed(s: string) {
    forall i :: 0 <= i < |s| ==> (s[i] as int) < 256
  }

  /** `None` stands for the IOException that the host decoder raises. */
  function Decode(s: string): (r: Option<Bytes>)
    ensures r.Some? <==> WellFormed(s)
    ensures r.Some? ==> |r.value| == |s|
  {
    if WellFormed(s) then Some(seq(|s|, i requires 0 <= i < |s| && WellFormed(s) => (s[i] as int) as byte))
    else None
  }

  /** Decoding what was encoded gives back the bytes. */
  lemma DecodeEncode(b: Bytes)
    ensures Decode(Encode(b)) == Some(b)
  {
    var s := Encode(b);
    assert WellFormed(s);
    assert Decode(s).value == b;
  }
}
