/** The answer to a WebSocket handshake (section 4.2.2 of RFC 6455): SHA-1 and base64 put together. */
module HandshakeImpl {
  import Basics
  import B = Base64Impl
  import Sha1Impl
  import opened Sha1Spec

  /** The fixed identifier that RFC 6455 appends to a client's key, in ASCII. */
  const MAGIC: seq<Byte> := [
    0x32, 0x35, 0x38, 0x45, 0x41, 0x46, 0x41, 0x35, 0x2d, 0x45, 0x39, 0x31, 0x34, 0x2d, 0x34, 0x37,
    0x44, 0x41, 0x2d, 0x39, 0x35, 0x43, 0x41, 0x2d, 0x43, 0x35, 0x41, 0x42, 0x30, 0x44, 0x43, 0x38,
    0x35, 0x42, 0x31, 0x31
  ]

  function Numbers(bytes: seq<Byte>): (n: seq<Basics.Byte>)
    ensures |n| == |bytes|
  {
    seq(|bytes|, i requires 0 <= i < |bytes| => bytes[i] as nat)
  }

  /** The accept key is the standard's for every key the request parser can hand over, 28 characters long. */
  method AcceptKey(wsKey: seq<Byte>) returns (acceptKey: string)
    requires |wsKey| <= 31
    ensures acceptKey == B.Rfc4648(Numbers(Digest(wsKey + MAGIC)))
    ensures |acceptKey| == 28
  {
    hide Numbers, DigestOf, Digest, Padded, B.Rfc4648, Sha1Impl.CodedLength;
    var buf := wsKey + MAGIC;
    var digest := new Byte[20];
    Sha1Impl.Calc(buf, digest);
    Sha1Impl.CalcIsSha1(buf);
    acceptKey := B.Encode(Numbers(digest[..]));
    B.Rfc4648Length(Numbers(digest[..]));
  }
}
