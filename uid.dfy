/**
 * accounts/utils.py: a user's id travels in the e-mail verification link as the URL-safe
 * base64 text of its decimal digits, and is read back with failures mapped to None.
 */
module Uid {
  import opened Wrappers
  import Bytes
  import Decimal
  import Base64Url

  /** encode_uid: `urlsafe_base64_encode(force_bytes(uid))`. */
  function EncodeUid(uid: int): (s: string)
    ensures Base64Url.IsUrlSafe(s)
    ensures |s| >= 2
  {
    Base64Url.Encode(Bytes.Encode(Decimal.IntText(uid)))
  }

  /**
   * decode_uid: `int(force_str(urlsafe_base64_decode(uidb64)))`, where a ValueError or
   * TypeError raised on the way becomes None.
   */
  function DecodeUid(uidb64: string): (r: Option<int>)
    ensures !Base64Url.IsUrlSafe(uidb64) ==> r == None
    ensures |uidb64| % 4 == 1 ==> r == None
    ensures |uidb64| < 2 ==> r == None
  {
    match Base64Url.Decode(uidb64)
    case None => None
    case Some(raw) =>
      match Bytes.DecodeAscii(raw)
      case None => None
      case Some(text) => Decimal.ParseInt(text)
  }

  /** Every uid survives the trip through the verification link. */
  lemma DecodeEncodeUid(uid: int)
    ensures DecodeUid(EncodeUid(uid)) == Some(uid)
  {
    var text := Decimal.IntText(uid);
    Base64Url.DecodeEncode(Bytes.Encode(text));
    Bytes.DecodeAsciiEncode(text);
    Decimal.ParseIntText(uid);
  }

  /** Distinct uids get distinct links, so a link names exactly one account. */
  lemma EncodeUidInjective(a: int, b: int)
    requires EncodeUid(a) == EncodeUid(b)
    ensures a == b
  {
    DecodeEncodeUid(a);
    DecodeEncodeUid(b);
  }
}
