/**
 * The request `json()` sends for an album: the feed path that `curl()` and
 * `socket()` format with `sprintf`, the two forms of request they send,
 * and the header skipping of `socket()`.
 */
module Requests {
  import opened Php

  const Host := "picasaweb.google.com"
  const CurlBase := "http://picasaweb.google.com"
  const UserPart := "/data/feed/base/user/"
  const AlbumPart := "/albumid/"
  const QueryPart := "?alt=json&fields=entry(media:group)&imgmax="
  const AuthPart := "&authkey="

  /** The `&authkey=` suffix, present exactly when the key is not `empty()`. */
  function AuthSuffix(authKey: string): (r: string)
    ensures r == "" <==> authKey == "" || authKey == "0"
    ensures r != "" ==> r == AuthPart + authKey
  {
    if EmptyString(authKey) then "" else AuthPart + authKey
  }

  /** The feed path: user and album with `%s`, width bound with `%d`, then the key suffix. */
  function RequestPath(user: Value, albumId: Value, maxWidth: int, authKey: string): (p: string)
    ensures |p| > |UserPart| && p[..|UserPart|] == UserPart
    ensures !EmptyString(authKey) ==>
      |p| >= |AuthPart + authKey| && p[|p| - |AuthPart + authKey|..] == AuthPart + authKey
  {
    Framed(UserPart, StrOf(user), AlbumPart, StrOf(albumId), QueryPart, IntToDecimal(maxWidth),
      AuthSuffix(authKey));
    UserPart + StrOf(user) + AlbumPart + StrOf(albumId) + QueryPart + IntToDecimal(maxWidth)
      + AuthSuffix(authKey)
  }

  /** A concatenation starts with its first part and ends with its last. */
  lemma Framed(a: string, b: string, c: string, d: string, e: string, f: string, g: string)
    ensures var p := a + b + c + d + e + f + g;
      p[..|a|] == a && p[|p| - |g|..] == g
  {
    var p := a + b + c + d + e + f + g;
    var m := b + c + d + e + f;
    assert p == a + m + g;
  }

  /** The request as handed to a transport. */
  datatype Request =
    | CurlGet(url: string)        // the URL given to cURL
    | SocketGet(message: string)  // the raw HTTP/1.1 message written to the socket

  const SocketTail := " HTTP/1.1\r\nHost: " + Host + "\r\nConnection: Close\r\n\r\n"

  /** What `curl()` fetches: the path on the plain-HTTP host. */
  function CurlRequest(path: string): (r: Request)
    ensures r.CurlGet? && PathOf(r) == path
    ensures |r.url| >= |CurlBase| && r.url[..|CurlBase|] == CurlBase
  {
    CurlGet(CurlBase + path)
  }

  /** What `socket()` writes: a `GET` of the path, the `Host` header, `Connection: Close`. */
  function SocketRequest(path: string): (r: Request)
    ensures r.SocketGet? && PathOf(r) == path
    ensures |r.message| >= 4 + |SocketTail|
    ensures r.message[..4] == "GET " && r.message[|r.message| - |SocketTail|..] == SocketTail
  {
    var m := "GET " + path + SocketTail;
    assert m[4..|m| - |SocketTail|] == path;
    assert m[..4] == "GET " && m[|m| - |SocketTail|..] == SocketTail;
    SocketGet(m)
  }

  /** The path a request asks for, read back from what is sent. */
  function PathOf(req: Request): string {
    match req
    case CurlGet(url) =>
      if |url| >= |CurlBase| then url[|CurlBase|..] else ""
    case SocketGet(message) =>
      if |message| >= 4 + |SocketTail| then message[4..|message| - |SocketTail|] else ""
  }

  /** The path carries every parameter, and the key only when it is not `empty()`. */
  lemma RequestPathParts(user: Value, albumId: Value, maxWidth: int, authKey: string)
    ensures var p := RequestPath(user, albumId, maxWidth, authKey);
      var base := UserPart + StrOf(user) + AlbumPart + StrOf(albumId) + QueryPart + IntToDecimal(maxWidth);
      && p[..|base|] == base
      && (authKey == "" || authKey == "0" ==> p == base)
      && (authKey != "" && authKey != "0" ==> p[|base|..] == "&authkey=" + authKey)
  {
  }

  /** The `imgmax` parameter reads back as the width bound, whatever the access key. */
  lemma RequestPathWidth(user: Value, albumId: Value, maxWidth: int, authKey: string)
    ensures var p := RequestPath(user, albumId, maxWidth, authKey);
      var start := |UserPart + StrOf(user) + AlbumPart + StrOf(albumId) + QueryPart|;
      var end := start + |IntToDecimal(maxWidth)|;
      && start < end <= |p|
      && (forall k :: start + 1 <= k < end ==> IsDigit(p[k]))
      && (p[start] == '-' || IsDigit(p[start]))
      && DecimalToInt(p[start..end]) == maxWidth
  {
    var p := RequestPath(user, albumId, maxWidth, authKey);
    var prefix := UserPart + StrOf(user) + AlbumPart + StrOf(albumId) + QueryPart;
    var digits := IntToDecimal(maxWidth);
    assert p == prefix + digits + AuthSuffix(authKey);
    assert p[|prefix|..|prefix| + |digits|] == digits;
    IntDecimalRoundTrip(maxWidth);
  }

  // ---------------------------------------------------------------------
  // socket(): everything after the first chunk that is exactly CR LF

  /** The strings in `chunks`, joined. */
  function Concat(chunks: seq<string>): string {
    if chunks == [] then "" else chunks[0] + Concat(chunks[1..])
  }

  /**
   * What `socket()` keeps of the chunks it reads: all that follows the
   * first chunk equal to CR LF. Each chunk is one `fgets($fp, 128)`: a line,
   * or at most 127 bytes of one, so a header line whose text is a multiple
   * of 127 bytes long leaves a bare CR LF chunk and ends the headers early.
   * The result is always a suffix of everything read.
   */
  function BodyAfterHeaders(chunks: seq<string>): (r: string)
    ensures |r| <= |Concat(chunks)|
    ensures Concat(chunks)[|Concat(chunks)| - |r|..] == r
  {
    if chunks == [] then ""
    else if chunks[0] == "\r\n" then
      assert Concat(chunks)[2..] == Concat(chunks[1..]);
      Concat(chunks[1..])
    else
      var all := Concat(chunks);
      var rest := Concat(chunks[1..]);
      assert all[|chunks[0]|..] == rest;
      BodyAfterHeaders(chunks[1..])
  }

  /** The header block ends at the first CR LF chunk, whatever follows. */
  lemma {:induction false} BodyFollowsBlankLine(headers: seq<string>, body: seq<string>)
    requires forall k :: 0 <= k < |headers| ==> headers[k] != "\r\n"
    ensures BodyAfterHeaders(headers + ["\r\n"] + body) == Concat(body)
  {
    var chunks := headers + ["\r\n"] + body;
    if headers == [] {
      assert chunks[1..] == body;
    } else {
      assert chunks[0] == headers[0];
      assert chunks[1..] == headers[1..] + ["\r\n"] + body;
      BodyFollowsBlankLine(headers[1..], body);
    }
  }

  /** A response without a CR LF chunk yields nothing. */
  lemma {:induction false} NoBlankLineNoBody(chunks: seq<string>)
    requires forall k :: 0 <= k < |chunks| ==> chunks[k] != "\r\n"
    ensures BodyAfterHeaders(chunks) == ""
  {
    if chunks != [] {
      assert chunks[0] != "\r\n";
      NoBlankLineNoBody(chunks[1..]);
    }
  }

  /**
   * The read loop of `socket()`: while in the headers, a chunk equal to
   * CR LF ends them; afterwards every chunk is appended to the result.
   */
  method SkipHeaders(chunks: seq<string>) returns (body: string)
    ensures body == BodyAfterHeaders(chunks)
  {
    var headers := true;
    body := "";
    var i := 0;
    while i < |chunks|
      invariant 0 <= i <= |chunks|
      invariant headers ==> body == "" && BodyAfterHeaders(chunks) == BodyAfterHeaders(chunks[i..])
      invariant !headers ==> BodyAfterHeaders(chunks) == body + Concat(chunks[i..])
    {
      assert chunks[i..][0] == chunks[i] && chunks[i..][1..] == chunks[i + 1..];
      if !headers {
        body := body + chunks[i];
      } else if chunks[i] == "\r\n" {
        headers := false;
      }
      i := i + 1;
    }
    assert chunks[i..] == [];
  }
}
