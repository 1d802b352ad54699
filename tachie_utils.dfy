/**
 * Request signing for the LibLib image service (lib/tachie/liblib/utils.ts).
 * The text `url&timestamp&nonce` is signed with HMAC-SHA1 under the secret
 * key, and the digest is written in URL-safe Base64. The clock, the random
 * nonce and the HMAC itself are inputs; the Base64 step is modelled.
 */
module TachieUtils {
  import opened Wrappers
  import opened JsText

  newtype byte = x: int | 0 <= x < 256

  const UseCorsProxy := false
  const CorsProxy := "https://cors-anywhere.herokuapp.com/"
  const ApiHost := "https://openapi.liblibai.cloud"

  /** `BASE_URL`: the proxy is switched off, so requests go to the service directly. */
  const BaseUrl := if UseCorsProxy then CorsProxy + ApiHost else ApiHost

  lemma BaseUrlIsHost()
    ensures BaseUrl == "https://openapi.liblibai.cloud"
  {
  }

  /** The standard Base64 alphabet: `A`-`Z`, `a`-`z`, `0`-`9`, `+` and `/`. */
  predicate InAlphabet(c: char) {
    'A' <= c <= 'Z' || 'a' <= c <= 'z' || '0' <= c <= '9' || c == '+' || c == '/'
  }

  function Digit(v: int): (c: char)
    requires 0 <= v < 64
    ensures InAlphabet(c)
  {
    if v < 26 then (65 + v) as char
    else if v < 52 then (97 + v - 26) as char
    else if v < 62 then (48 + v - 52) as char
    else if v == 62 then '+'
    else '/'
  }

  /** The Base64 digits of `b` without padding: four for every three bytes, two or three for a short tail. */
  function Digits(b: seq<byte>): (s: string)
    ensures |s| == (4 * |b| + 2) / 3
    ensures forall i :: 0 <= i < |s| ==> InAlphabet(s[i]) && s[i] != '='
  {
    if |b| == 0 then ""
    else if |b| == 1 then
      var x := b[0] as int;
      [Digit(x / 4), Digit((x % 4) * 16)]
    else if |b| == 2 then
      var x, y := b[0] as int, b[1] as int;
      [Digit(x / 4), Digit((x % 4) * 16 + y / 16), Digit((y % 16) * 4)]
    else
      var x, y, z := b[0] as int, b[1] as int, b[2] as int;
      var head := [Digit(x / 4), Digit((x % 4) * 16 + y / 16), Digit((y % 16) * 4 + z / 64), Digit(z % 64)];
      var rest := Digits(b[3..]);
      assert forall i :: 4 <= i < |head + rest| ==> (head + rest)[i] == rest[i - 4];
      head + rest
  }

  /** `btoa` of the digest's bytes: the digits, padded with `=` to a multiple of four. */
  function Base64(b: seq<byte>): string {
    Digits(b) + (if |b| % 3 == 1 then "==" else if |b| % 3 == 2 then "=" else "")
  }

  /** `.replace(/\+/g, "-").replace(/\//g, "_")` on one character. */
  function UrlSafeChar(c: char): char {
    if c == '+' then '-' else if c == '/' then '_' else c
  }

  function MapUrlSafe(s: string): (r: string)
    ensures |r| == |s|
    ensures forall i :: 0 <= i < |s| ==> r[i] == UrlSafeChar(s[i])
  {
    seq(|s|, i requires 0 <= i < |s| => UrlSafeChar(s[i]))
  }

  /** `.replace(/=+$/, "")`: drop every `=` at the end. */
  function TrimPadding(s: string): (r: string)
    ensures |r| <= |s| && r == s[..|r|]
    ensures |r| > 0 ==> r[|r| - 1] != '='
    ensures forall i :: |r| <= i < |s| ==> s[i] == '='
  {
    if |s| > 0 && s[|s| - 1] == '=' then TrimPadding(s[..|s| - 1]) else s
  }

  /** The URL-safe form of a Base64 text. */
  function UrlSafe(hash: string): string {
    TrimPadding(MapUrlSafe(hash))
  }

  lemma {:induction false} TrimPaddingAppend(x: string, pad: string)
    requires |x| > 0 ==> x[|x| - 1] != '='
    requires forall i :: 0 <= i < |pad| ==> pad[i] == '='
    ensures TrimPadding(x + pad) == x
  {
    if |pad| == 0 {
      assert x + pad == x;
    } else {
      var shorter := pad[..|pad| - 1];
      assert (x + pad)[..|x + pad| - 1] == x + shorter;
      TrimPaddingAppend(x, shorter);
    }
  }

  /** The replacements leave padding as it is. */
  lemma MapUrlSafeAppend(d: string, pad: string)
    requires forall i :: 0 <= i < |pad| ==> pad[i] == '='
    ensures MapUrlSafe(d + pad) == MapUrlSafe(d) + pad
  {
  }

  /**
   * The URL-safe signature of a digest is its Base64 digits with `+` and
   * `/` replaced and the padding dropped: it holds no `+`, `/` or `=`.
   */
  lemma UrlSafeBase64(b: seq<byte>)
    ensures UrlSafe(Base64(b)) == MapUrlSafe(Digits(b))
    ensures forall i :: 0 <= i < |UrlSafe(Base64(b))| ==> UrlSafe(Base64(b))[i] !in {'+', '/', '='}
  {
    var d := Digits(b);
    var pad := if |b| % 3 == 1 then "==" else if |b| % 3 == 2 then "=" else "";
    assert Base64(b) == d + pad;
    MapUrlSafeAppend(d, pad);
    TrimPaddingAppend(MapUrlSafe(d), pad);
    var r := MapUrlSafe(d);
    forall i | 0 <= i < |r|
      ensures r[i] !in {'+', '/', '='}
    {
      assert InAlphabet(d[i]);
    }
  }

  /** An HMAC-SHA1 digest has 20 bytes, so its signature has 27 characters. */
  lemma Sha1SignatureLength(b: seq<byte>)
    requires |b| == 20
    ensures |UrlSafe(Base64(b))| == 27
  {
    UrlSafeBase64(b);
  }

  datatype Signature = Signature(signature: string, timestamp: int, signatureNonce: string)

  const NonceLength := 16

  /** `randomString(16)`: sixteen characters drawn by the library. */
  function Nonce(draw: nat -> char): (n: string)
    ensures |n| == NonceLength
  {
    seq(NonceLength, i requires 0 <= i < NonceLength => draw(i))
  }

  /** The text that is signed: `url&timestamp&nonce`. */
  function SignedText(url: string, timestamp: int, nonce: string): string {
    url + "&" + IntToString(timestamp) + "&" + nonce
  }

  /**
   * `urlSignature`: nothing for an empty URL; otherwise the URL-safe
   * signature of the signed text, with the time and nonce it used.
   * `hmac(key, text)` is the HMAC-SHA1 digest of the text under the key.
   */
  function UrlSignature(url: string, secretKey: string, now: int, draw: nat -> char,
                        hmac: (string, string) -> seq<byte>): (r: Option<Signature>)
    ensures r.None? <==> url == ""
    ensures r.Some? ==> r.value.timestamp == now && |r.value.signatureNonce| == NonceLength
    ensures r.Some? ==>
      r.value.signature == UrlSafe(Base64(hmac(secretKey, SignedText(url, now, r.value.signatureNonce))))
  {
    if url == "" then None
    else
      var nonce := Nonce(draw);
      Some(Signature(UrlSafe(Base64(hmac(secretKey, SignedText(url, now, nonce)))), now, nonce))
  }

  /** `getSignedUrl`: the endpoint on the service with the four query parameters. */
  function GetSignedUrl(accessKey: string, secretKey: string, endpoint: string, now: int, draw: nat -> char,
                        hmac: (string, string) -> seq<byte>): string
  {
    var sig := UrlSignature(endpoint, secretKey, now, draw, hmac);
    var s := if sig.Some? then sig.value else Signature("", 0, "");
    BaseUrl + endpoint + "?AccessKey=" + accessKey + "&Signature=" + s.signature
      + "&Timestamp=" + IntToString(s.timestamp) + "&SignatureNonce=" + s.signatureNonce
  }

  /** For an empty endpoint the signature, time and nonce are `''`, `0` and `''`. */
  lemma SignedUrlUnsigned(accessKey: string, secretKey: string, now: int, draw: nat -> char,
                          hmac: (string, string) -> seq<byte>)
    ensures GetSignedUrl(accessKey, secretKey, "", now, draw, hmac)
      == BaseUrl + "" + "?AccessKey=" + accessKey + "&Signature=" + "" + "&Timestamp=" + "0" + "&SignatureNonce=" + ""
  {
    assert IntToString(0) == "0";
  }

  /**
   * For a non-empty endpoint the URL carries a signature free of `+`, `/`
   * and `=`, the current time and a 16-character nonce, after the service
   * address, the endpoint and the access key.
   */
  lemma SignedUrlSigned(accessKey: string, secretKey: string, endpoint: string, now: int, draw: nat -> char,
                        hmac: (string, string) -> seq<byte>)
    requires endpoint != ""
    ensures var s := UrlSignature(endpoint, secretKey, now, draw, hmac).value;
      GetSignedUrl(accessKey, secretKey, endpoint, now, draw, hmac)
        == BaseUrl + endpoint + "?AccessKey=" + accessKey + "&Signature=" + s.signature
           + "&Timestamp=" + IntToString(now) + "&SignatureNonce=" + s.signatureNonce
      && |s.signatureNonce| == NonceLength
      && forall i :: 0 <= i < |s.signature| ==> s.signature[i] !in {'+', '/', '='}
  {
    var s := UrlSignature(endpoint, secretKey, now, draw, hmac).value;
    UrlSafeBase64(hmac(secretKey, SignedText(endpoint, now, s.signatureNonce)));
  }
}
