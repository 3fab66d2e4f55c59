/**
  Splitting a peer address such as "192.0.2.1:1234" or "[::1]:80" into
  its host and port, following Go's `net.SplitHostPort`, which the
  requester lookup applies to `RemoteAddr`.
 */
module HostPort {
  import opened Wrappers

  datatype HostPort = HostPort(host: string, port: string)

  /** The reasons `net.SplitHostPort` rejects an address. */
  datatype AddrError =
    | MissingPort
    | TooManyColons
    | MissingCloseBracket
    | UnexpectedOpenBracket
    | UnexpectedCloseBracket

  /** Index of the last occurrence of `c` in `s`, or -1. */
  function LastIndex(s: string, c: char): (i: int)
    ensures -1 <= i < |s|
    ensures i >= 0 ==> s[i] == c
    ensures forall k :: i < k < |s| ==> s[k] != c
  {
    if |s| == 0 then -1
    else if s[|s| - 1] == c then |s| - 1
    else LastIndex(s[..|s| - 1], c)
  }

  /** Index of the first occurrence of `c` in `s`, or -1. */
  function FirstIndex(s: string, c: char): (i: int)
    ensures -1 <= i < |s|
    ensures i >= 0 ==> s[i] == c
    ensures forall k :: 0 <= k < |s| && (i < 0 || k < i) ==> s[k] != c
  {
    if |s| == 0 then -1
    else if s[0] == c then 0
    else
      var j := FirstIndex(s[1..], c);
      if j < 0 then -1 else j + 1
  }

  predicate BracketFree(s: string)
  {
    '[' !in s && ']' !in s
  }

  /**
    `addr` is `host:port` with a colon-free host, or `[host]:port`; in
    both the port has no colon and neither part has a bracket.
   */
  predicate IsJoined(addr: string, hp: HostPort)
  {
    && BracketFree(hp.host)
    && BracketFree(hp.port)
    && ':' !in hp.port
    && (|| addr == "[" + hp.host + "]:" + hp.port
        || (':' !in hp.host && addr == hp.host + ":" + hp.port))
  }

  /**
    The port starts after the last colon; a leading '[' asks for the
    first ']' to sit just before that colon.
   */
  function SplitHostPort(addr: string): (r: Result<HostPort, AddrError>)
    ensures r.Success? ==> IsJoined(addr, r.value)
  {
    var i := LastIndex(addr, ':');
    if i < 0 then Failure(MissingPort)
    else if addr[0] == '[' then
      var end := FirstIndex(addr, ']');
      if end < 0 then Failure(MissingCloseBracket)
      else if end + 1 == |addr| then Failure(MissingPort)
      else if end + 1 != i then
        (if addr[end + 1] == ':' then Failure(TooManyColons) else Failure(MissingPort))
      else if '[' in addr[1..] then Failure(UnexpectedOpenBracket)
      else if ']' in addr[end + 1..] then Failure(UnexpectedCloseBracket)
      else
        var hp := HostPort(addr[1..end], addr[i + 1..]);
        assert addr == "[" + hp.host + "]:" + hp.port;
        Success(hp)
    else
      var host := addr[..i];
      if ':' in host then Failure(TooManyColons)
      else if '[' in addr then Failure(UnexpectedOpenBracket)
      else if ']' in addr then Failure(UnexpectedCloseBracket)
      else
        var hp := HostPort(host, addr[i + 1..]);
        assert addr == hp.host + ":" + hp.port;
        Success(hp)
  }

  /** Go's `net.JoinHostPort`: brackets a host that contains a colon. */
  function JoinHostPort(hp: HostPort): string
  {
    if ':' in hp.host then "[" + hp.host + "]:" + hp.port else hp.host + ":" + hp.port
  }

  /** A bracketed address `[host]:port` splits back into its parts. */
  lemma SplitBracketed(hp: HostPort)
    requires BracketFree(hp.host) && BracketFree(hp.port) && ':' !in hp.port
    ensures SplitHostPort("[" + hp.host + "]:" + hp.port) == Success(hp)
  {
    var h, p := hp.host, hp.port;
    var addr := "[" + h + "]:" + p;
    var n := |h|;
    assert addr[n + 2] == ':';
    forall k | n + 2 < k < |addr| ensures addr[k] != ':' {
      assert addr[k] == p[k - n - 3];
    }
    var i := LastIndex(addr, ':');
    assert i == n + 2;
    assert addr[n + 1] == ']';
    forall k | 0 <= k < n + 1 ensures addr[k] != ']' {
      if k > 0 { assert addr[k] == h[k - 1]; }
    }
    var end := FirstIndex(addr, ']');
    assert end == n + 1;
    assert addr[1..] == h + "]:" + p;
    assert addr[end + 1..] == ":" + p;
    assert addr[1..end] == h;
    assert addr[i + 1..] == p;
  }

  /** A plain address `host:port` with a colon-free host splits back into its parts. */
  lemma SplitPlain(hp: HostPort)
    requires BracketFree(hp.host) && BracketFree(hp.port) && ':' !in hp.port && ':' !in hp.host
    ensures SplitHostPort(hp.host + ":" + hp.port) == Success(hp)
  {
    var h, p := hp.host, hp.port;
    var addr := h + ":" + p;
    var n := |h|;
    assert addr[n] == ':';
    forall k | n < k < |addr| ensures addr[k] != ':' {
      assert addr[k] == p[k - n - 1];
    }
    var i := LastIndex(addr, ':');
    assert i == n;
    if n > 0 {
      assert addr[0] == h[0];
    }
    assert addr[..i] == h;
    assert addr[i + 1..] == p;
    assert '[' !in addr && ']' !in addr by {
      forall k | 0 <= k < |addr| ensures addr[k] != '[' && addr[k] != ']' {
        if k < n { assert addr[k] == h[k]; }
        else if k > n { assert addr[k] == p[k - n - 1]; }
      }
    }
  }

  /** Every address of a joined shape splits back into its parts. */
  lemma SplitJoined(addr: string, hp: HostPort)
    requires IsJoined(addr, hp)
    ensures SplitHostPort(addr) == Success(hp)
  {
    if addr == "[" + hp.host + "]:" + hp.port {
      SplitBracketed(hp);
    } else {
      SplitPlain(hp);
    }
  }

  /** Joining a bracket-free host and port and splitting again is the identity. */
  lemma SplitJoinRoundTrip(hp: HostPort)
    requires BracketFree(hp.host) && BracketFree(hp.port) && ':' !in hp.port
    ensures SplitHostPort(JoinHostPort(hp)) == Success(hp)
  {
    SplitJoined(JoinHostPort(hp), hp);
  }
}
