/**
 * The expiry check the client token store and the token route share:
 * the second dot-separated segment of the token is decoded as the JSON
 * payload, and the token has expired once the clock reaches `exp` seconds.
 */
module Jwt {
  import opened Common

  /** `s.split(".")` */
  function SplitDots(s: string): (parts: seq<string>)
    ensures |parts| >= 1
    ensures forall i, j :: 0 <= i < |parts| && 0 <= j < |parts[i]| ==> parts[i][j] != '.'
    ensures (forall j :: 0 <= j < |s| ==> s[j] != '.') ==> parts == [s]
  {
    if s == [] then [[]]
    else
      var rest := SplitDots(s[1..]);
      assert [s[0]] + s[1..] == s;
      if s[0] == '.' then [[]] + rest
      else [[s[0]] + rest[0]] + rest[1..]
  }

  /** Joining the parts with dots gives the string back. */
  function JoinDots(parts: seq<string>): string
    requires |parts| >= 1
  {
    if |parts| == 1 then parts[0] else parts[0] + "." + JoinDots(parts[1..])
  }

  lemma {:induction false} JoinSplit(s: string)
    ensures JoinDots(SplitDots(s)) == s
  {
    if s != [] {
      var rest := SplitDots(s[1..]);
      JoinSplit(s[1..]);
      if s[0] == '.' {
        assert SplitDots(s)[1..] == rest;
      } else {
        var parts := SplitDots(s);
        assert parts[1..] == rest[1..];
        if |rest| == 1 {
          assert JoinDots(parts) == [s[0]] + rest[0];
        } else {
          assert JoinDots(rest) == rest[0] + "." + JoinDots(rest[1..]);
        }
      }
    }
  }

  /**
   * What `JSON.parse(atob(segment))` gives: a failure, or a payload whose
   * `exp` is a number (`None` when it is missing or not numeric, so that
   * `exp * 1000` is NaN).
   */
  datatype Payload = Unreadable | Claims(exp: Option<int>)

  /**
   * `isTokenExpired(token)` at clock reading `now` (milliseconds); `decode`
   * stands for base64 decoding and JSON parsing of the payload segment. A
   * token without a second segment makes `atob` throw.
   */
  function IsExpired(token: string, now: int, decode: string -> Payload): (expired: bool)
    ensures |SplitDots(token)| < 2 ==> expired
    ensures |SplitDots(token)| >= 2 ==>
              match decode(SplitDots(token)[1])
              case Unreadable => expired
              case Claims(None) => !expired
              case Claims(Some(exp)) => expired <==> now >= exp * 1000
  {
    var parts := SplitDots(token);
    if |parts| < 2 then true
    else
      match decode(parts[1])
      case Unreadable => true
      case Claims(None) => false
      case Claims(Some(exp)) => now >= exp * 1000
  }

  /** A token that has expired stays expired. */
  lemma ExpiredStaysExpired(token: string, now: int, later: int, decode: string -> Payload)
    requires now <= later && IsExpired(token, now, decode)
    ensures IsExpired(token, later, decode)
  {
  }

  /** A payload without a numeric `exp` never expires. */
  lemma NoExpNeverExpires(token: string, now: int, decode: string -> Payload)
    requires |SplitDots(token)| >= 2 && decode(SplitDots(token)[1]) == Claims(None)
    ensures !IsExpired(token, now, decode)
  {
  }
}
