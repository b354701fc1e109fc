/**
 * The opaque page token of the list operations: the table key is written as
 * JSON text, the text as UTF-8 bytes and the bytes in base 64.
 */
module Cursor {
  import opened Common
  import Base64
  import Utf8
  import JsonKey

  /** `Buffer.from(JSON.stringify(key), "utf8").toString("base64")` */
  function EncodeToken(k: JsonKey.Key): (t: string)
    ensures |t| >= 4
  {
    Base64.Encode(Utf8.Encode(JsonKey.Stringify(k)))
  }

  /**
   * `JSON.parse(Buffer.from(token, "base64").toString("utf8"))`, with `None`
   * standing for the exception thrown on a token that is not the encoding of
   * a key object.
   */
  function DecodeToken(t: string): (r: Option<JsonKey.Key>)
    ensures t == "" ==> r.None?
  {
    match Base64.Decode(t)
    case None => None
    case Some(bytes) =>
      match Utf8.Decode(bytes)
      case None => None
      case Some(text) => JsonKey.Parse(text)
  }

  /** A token handed out for a key leads back to that key. */
  lemma DecodeEncodeToken(k: JsonKey.Key)
    requires JsonKey.DistinctNames(k)
    ensures DecodeToken(EncodeToken(k)) == Some(k)
  {
    var text := JsonKey.Stringify(k);
    Base64.DecodeEncode(Utf8.Encode(text));
    Utf8.DecodeEncode(text);
    JsonKey.ParseStringify(k);
  }

  /** Different keys never share a token. */
  lemma EncodeTokenInjective(k1: JsonKey.Key, k2: JsonKey.Key)
    requires JsonKey.DistinctNames(k1) && JsonKey.DistinctNames(k2)
    requires EncodeToken(k1) == EncodeToken(k2)
    ensures k1 == k2
  {
    DecodeEncodeToken(k1);
    DecodeEncodeToken(k2);
  }

  /**
   * A token never collides with the `__FIRST__` marker the list views use for
   * the first page, since `_` is not a base 64 character.
   */
  lemma TokenIsNotFirstMarker(k: JsonKey.Key)
    ensures EncodeToken(k) != "__FIRST__"
  {
    var t := EncodeToken(k);
    Base64.EncodeInAlphabet(Utf8.Encode(JsonKey.Stringify(k)));
    assert Base64.InAlphabet(t[0]);
  }
}
