/**
 * The URL-fragment form of an encoded workout: encodeLubbaDataToHash turns
 * each byte into the character with that code, base64-encodes the string and,
 * in URL mode, writes every `/` as `%2F`; decodeLubbaDataFromHash
 * base64-decodes and takes each character's code as one byte.
 */
module Hash {
  import opened Wrappers
  import opened Bytes
  import Base64

  // ---------------------------------------------------------------- Latin-1 strings

  /** A string all of whose characters are below 256, as btoa accepts and atob returns. */
  predicate IsLatin1(s: string)
  {
    forall i :: 0 <= i < |s| ==> s[i] as int < 256
  }

  /** `String.fromCharCode` applied to each byte. */
  function Latin1(b: seq<byte>): (s: string)
    ensures |s| == |b| && IsLatin1(s)
  {
    seq(|b|, i requires 0 <= i < |b| => b[i] as char)
  }

  /** `charCodeAt` applied to each character. */
  function Codes(s: string): (b: seq<byte>)
    requires IsLatin1(s)
    ensures |b| == |s|
  {
    seq(|s|, i requires 0 <= i < |s| => s[i] as int)
  }

  /** Bytes and Latin-1 strings correspond one to one. */
  lemma Latin1Bijective(b: seq<byte>, s: string)
    ensures Codes(Latin1(b)) == b
    ensures IsLatin1(s) ==> Latin1(Codes(s)) == s
  {
    assert forall i :: 0 <= i < |b| ==> Codes(Latin1(b))[i] == b[i];
    if IsLatin1(s) {
      assert forall i :: 0 <= i < |s| ==> Latin1(Codes(s))[i] == s[i];
    }
  }

  /** btoa: base64 of the character codes. */
  function Btoa(s: string): string
    requires IsLatin1(s)
  {
    Base64.Encode(Codes(s))
  }

  /** atob: None where it throws, else the decoded bytes as characters. */
  function Atob(t: string): (r: Option<string>)
    ensures r.Some? ==> IsLatin1(r.value)
  {
    match Base64.Decode(t)
    case None => None
    case Some(b) => Some(Latin1(b))
  }

  // ---------------------------------------------------------------- URL mode

  /** `replace(/\//g, '%2F')`: every slash written as its percent escape. */
  function EscapeSlashes(t: string): (u: string)
    ensures forall i :: 0 <= i < |u| ==> u[i] != '/'
    ensures |u| >= |t|
  {
    if t == [] then []
    else (if t[0] == '/' then "%2F" else [t[0]]) + EscapeSlashes(t[1..])
  }

  /** The percent escape of a slash read back as a slash; what a URL decoder does for `%2F`. */
  function UnescapeSlashes(u: string): string
    decreases |u|
  {
    if u == [] then []
    else if |u| >= 3 && u[..3] == "%2F" then "/" + UnescapeSlashes(u[3..])
    else [u[0]] + UnescapeSlashes(u[1..])
  }

  /** Escaping is undone by unescaping on any text free of `%`, such as base64. */
  lemma {:induction false} EscapeRoundTrip(t: string)
    requires forall i :: 0 <= i < |t| ==> t[i] != '%'
    ensures UnescapeSlashes(EscapeSlashes(t)) == t
  {
    if t != [] {
      EscapeRoundTrip(t[1..]);
      var head := if t[0] == '/' then "%2F" else [t[0]];
      var u := head + EscapeSlashes(t[1..]);
      assert EscapeSlashes(t) == u;
      if t[0] == '/' {
        assert u[..3] == "%2F" && u[3..] == EscapeSlashes(t[1..]);
      } else {
        assert u[1..] == EscapeSlashes(t[1..]);
      }
      assert [t[0]] + t[1..] == t;
    }
  }

  /** Text without a slash is left as it is. */
  lemma {:induction false} EscapeKeepsSlashFree(t: string)
    requires forall i :: 0 <= i < |t| ==> t[i] != '/'
    ensures EscapeSlashes(t) == t
  {
    if t != [] {
      EscapeKeepsSlashFree(t[1..]);
      assert [t[0]] + t[1..] == t;
    }
  }

  /** Escaping a text that has a slash leaves a `%` in it. */
  lemma {:induction false} EscapeLeavesPercent(t: string, i: nat)
    requires i < |t| && t[i] == '/'
    ensures exists j :: 0 <= j < |EscapeSlashes(t)| && EscapeSlashes(t)[j] == '%'
  {
    if i == 0 {
      assert EscapeSlashes(t)[0] == '%';
    } else {
      EscapeLeavesPercent(t[1..], i - 1);
      var j :| 0 <= j < |EscapeSlashes(t[1..])| && EscapeSlashes(t[1..])[j] == '%';
      var head := if t[0] == '/' then "%2F" else [t[0]];
      assert EscapeSlashes(t) == head + EscapeSlashes(t[1..]);
      assert EscapeSlashes(t)[|head| + j] == '%';
    }
  }

  // ---------------------------------------------------------------- the hash

  /** What encodeLubbaDataToHash returns. */
  function ToHash(data: seq<byte>, urlEncode: bool): string
  {
    var plain := Btoa(Latin1(data));
    if urlEncode then EscapeSlashes(plain) else plain
  }

  /** What decodeLubbaDataFromHash returns; None where atob throws. */
  function FromHash(hash: string): Option<seq<byte>>
  {
    match Atob(hash)
    case None => None
    case Some(a) => Some(Codes(a))
  }

  /** A plain hash decodes back to the bytes it was made from. */
  lemma HashRoundTrip(data: seq<byte>)
    ensures FromHash(ToHash(data, false)) == Some(data)
  {
    Latin1Bijective(data, []);
    Base64.RoundTrip(data);
  }

  /** A URL-mode hash has no slash, and decodes back once its `%2F` escapes are read as slashes. */
  lemma UrlHashRoundTrip(data: seq<byte>)
    ensures forall i :: 0 <= i < |ToHash(data, true)| ==> ToHash(data, true)[i] != '/'
    ensures UnescapeSlashes(ToHash(data, true)) == ToHash(data, false)
    ensures FromHash(UnescapeSlashes(ToHash(data, true))) == Some(data)
  {
    var plain := ToHash(data, false);
    EscapeRoundTrip(plain);
    HashRoundTrip(data);
  }

  /**
   * A URL-mode hash handed to decodeLubbaDataFromHash as it is fails whenever
   * an escape was made: atob throws on the `%`. Its caller must turn `%2F`
   * back into `/` first.
   */
  lemma UrlHashNeedsUnescaping(data: seq<byte>)
    ensures (exists i :: 0 <= i < |ToHash(data, false)| && ToHash(data, false)[i] == '/')
            ==> FromHash(ToHash(data, true)) == None
  {
    var plain := ToHash(data, false);
    if exists i :: 0 <= i < |plain| && plain[i] == '/' {
      var i :| 0 <= i < |plain| && plain[i] == '/';
      EscapeLeavesPercent(plain, i);
      var u := EscapeSlashes(plain);
      var j :| 0 <= j < |u| && u[j] == '%';
      Base64.RejectsForeignChar(u, j);
    }
  }

  /** A URL-mode hash differs from the plain one only where the plain one has a slash. */
  lemma UrlModeOnlyEscapesSlashes(data: seq<byte>)
    ensures (forall i :: 0 <= i < |ToHash(data, false)| ==> ToHash(data, false)[i] != '/')
            <==> ToHash(data, true) == ToHash(data, false)
  {
    var plain := ToHash(data, false);
    if forall i :: 0 <= i < |plain| ==> plain[i] != '/' {
      EscapeKeepsSlashFree(plain);
    } else {
      var i :| 0 <= i < |plain| && plain[i] == '/';
      assert EscapeSlashes(plain) != plain;
    }
  }

  // ---------------------------------------------------------------- methods

  /** encodeLubbaDataToHash: builds the Latin-1 string one character per byte, then base64-encodes it. */
  method EncodeLubbaDataToHash(data: seq<byte>, urlEncode: bool) returns (hash: string)
    ensures hash == ToHash(data, urlEncode)
    ensures urlEncode ==> forall i :: 0 <= i < |hash| ==> hash[i] != '/'
  {
    var s: string := "";
    for j := 0 to |data|
      invariant s == Latin1(data[..j])
    {
      s := s + [data[j] as char];
    }
    assert data[..|data|] == data;
    if urlEncode {
      hash := EscapeSlashes(Btoa(s));
    } else {
      hash := Btoa(s);
    }
  }

  /** decodeLubbaDataFromHash: base64-decodes, then fills a byte array one character code at a time. */
  method DecodeLubbaDataFromHash(hash: string) returns (r: Option<seq<byte>>)
    ensures r == FromHash(hash)
  {
    var a := Atob(hash);
    if a.None? {
      return None;
    }
    var s := a.value;
    var bytes := new byte[|s|];
    for i := 0 to |s|
      invariant forall k :: 0 <= k < i ==> bytes[k] == s[k] as int
    {
      bytes[i] := s[i] as int;
    }
    r := Some(bytes[..]);
    assert bytes[..] == Codes(s);
  }
}
