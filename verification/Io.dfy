/** The writers the daemon streams its answers to. */
module Io {

  /** An `io.Writer` that may stop accepting at any point. */
  class Sink<T> {
    var accepted: seq<T>

    method Write(data: seq<T>) returns (n: nat, failed: bool)
      modifies this
      ensures n <= |data| && accepted == old(accepted) + data[..n]
      ensures n < |data| ==> failed
    {
      n :| 0 <= n <= |data|;
      failed :| n < |data| ==> failed;
      accepted := accepted + data[..n];
    }
  }

  /** Taking `n` elements of a further chunk of the stream takes a longer opening of it. */
  lemma StillOpens<T>(stream: seq<T>, before: seq<T>, chunk: seq<T>, n: nat)
    requires before + chunk <= stream && n <= |chunk|
    ensures before + chunk[..n] == stream[..|before| + n]
  {
    assert (before + chunk)[..|before| + n] == before + chunk[..n];
  }
}
