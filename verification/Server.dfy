/** SSH session requests, and what a command line sent over them leads to. */
module Server {
  import opened Bytes
  import opened Handler
  import opened RateLimit
  import opened Strings
  import opened Wrappers

  // ----- SSH strings (section 5 of RFC 4251)

  predicate FitsUint32<T>(s: seq<T>) {
    |s| < TWO_32
  }

  function EncodedString(s: seq<byte>): seq<byte>
    requires FitsUint32(s)
  {
    PutUint32(|s|) + s
  }

  /** An `env` request: a name and a value (section 6.4 of RFC 4254). */
  function ParseEnvPayload(payload: seq<byte>): Option<(seq<byte>, seq<byte>)> {
    if |payload| < 4 then None
    else
      var nameLen := Uint32(payload, 0);
      if |payload| < 4 + nameLen + 4 then None
      else
        var off := 4 + nameLen;
        var valLen := Uint32(payload, off);
        if |payload| < off + 4 + valLen then None
        else Some((payload[4..off], payload[off + 4..off + 4 + valLen]))
  }

  ghost predicate IsEnvPayload(payload: seq<byte>, name: seq<byte>, value: seq<byte>) {
    && FitsUint32(name) && FitsUint32(value)
    && EncodedString(name) + EncodedString(value) <= payload
  }

  /** Parsing succeeds exactly on payloads that open with two SSH strings, and returns those. */
  lemma EnvPayloadExactly(payload: seq<byte>, name: seq<byte>, value: seq<byte>)
    ensures ParseEnvPayload(payload) == Some((name, value)) <==> IsEnvPayload(payload, name, value)
  {
    if ParseEnvPayload(payload) == Some((name, value)) {
      ParsedIsEncoded(payload, name, value);
    }
    if IsEnvPayload(payload, name, value) {
      EncodedIsParsed(payload, name, value);
    }
  }

  /** An SSH string found in the middle of a payload. */
  lemma StringAt(payload: seq<byte>, before: seq<byte>, s: seq<byte>, after: seq<byte>)
    requires FitsUint32(s) && payload == before + (PutUint32(|s|) + (s + after))
    ensures var at := |before| + 4;
      && at + |s| <= |payload| && Uint32(payload, |before|) == |s| && payload[at..at + |s|] == s
  {
    Uint32OfPut(before, |s|, s + after);
  }

  lemma EncodedIsParsed(payload: seq<byte>, name: seq<byte>, value: seq<byte>)
    requires IsEnvPayload(payload, name, value)
    ensures ParseEnvPayload(payload) == Some((name, value))
  {
    var rest := payload[8 + |name| + |value|..];
    assert payload == EncodedString(name) + EncodedString(value) + rest;
    assert payload == [] + (PutUint32(|name|) + (name + (EncodedString(value) + rest)));
    StringAt(payload, [], name, EncodedString(value) + rest);
    assert payload == EncodedString(name) + (PutUint32(|value|) + (value + rest));
    StringAt(payload, EncodedString(name), value, rest);
    TwoStringsParsed(payload, name, value, 4 + |name|);
  }

  lemma TwoStringsParsed(payload: seq<byte>, name: seq<byte>, value: seq<byte>, off: nat)
    requires off == 4 + |name| && off + 4 + |value| <= |payload|
    requires Uint32(payload, 0) == |name| && payload[4..off] == name
    requires Uint32(payload, off) == |value| && payload[off + 4..off + 4 + |value|] == value
    ensures ParseEnvPayload(payload) == Some((name, value))
  {
  }

  lemma ParsedIsEncoded(payload: seq<byte>, name: seq<byte>, value: seq<byte>)
    requires ParseEnvPayload(payload) == Some((name, value))
    ensures IsEnvPayload(payload, name, value)
  {
    var off := 4 + |name|;
    var end := off + 4 + |value|;
    PutOfUint32(payload, 0);
    PutOfUint32(payload, off);
    assert EncodedString(name) == payload[..off];
    assert EncodedString(value) == payload[off..end];
    assert payload[..off] + payload[off..end] == payload[..end];
  }

  // ----- One session channel

  datatype Request = Request(kind: string, payload: seq<byte>)

  datatype Run = Exec(command: seq<byte>, session: Session) | Shell(session: Session)

  const PUBKEY_VARIABLE := Ascii("SSHWEB_PUBKEY")

  /** The command of a well-formed `exec` request (section 6.5 of RFC 4254). */
  function ExecCommand(payload: seq<byte>): Option<seq<byte>> {
    if |payload| < 4 || |payload| < 4 + Uint32(payload, 0) then None
    else Some(payload[4..4 + Uint32(payload, 0)])
  }

  /** The command is read exactly from payloads that open with it as an SSH string. */
  lemma ExecPayloadExactly(payload: seq<byte>, command: seq<byte>)
    ensures ExecCommand(payload) == Some(command) <==> FitsUint32(command) && EncodedString(command) <= payload
  {
    if ExecCommand(payload) == Some(command) {
      PutOfUint32(payload, 0);
      assert EncodedString(command) == payload[..4 + |command|];
    }
    if FitsUint32(command) && EncodedString(command) <= payload {
      var rest := payload[4 + |command|..];
      assert payload == EncodedString(command) + rest;
      assert payload == [] + (PutUint32(|command|) + (command + rest));
      StringAt(payload, [], command, rest);
    }
  }

  /** Requests that start something. */
  predicate Starts(r: Request) {
    r.kind == "shell" || (r.kind == "exec" && ExecCommand(r.payload).Some?)
  }

  predicate Accepted(r: Request) {
    Starts(r) || (r.kind == "env" && ParseEnvPayload(r.payload).Some?)
  }

  /** What starts something: a `shell` request, or an `exec` request that opens with a command. */
  lemma StartsExactly(r: Request)
    ensures Starts(r) <==>
            || r.kind == "shell"
            || (r.kind == "exec" && exists command: seq<byte> :: FitsUint32(command) && EncodedString(command) <= r.payload)
  {
    if r.kind == "exec" && ExecCommand(r.payload).Some? {
      ExecPayloadExactly(r.payload, ExecCommand(r.payload).value);
    }
    if command: seq<byte> :| FitsUint32(command) && EncodedString(command) <= r.payload {
      ExecPayloadExactly(r.payload, command);
    }
  }

  /** Those are answered yes, and so is an `env` request that opens with a name and a value; no other is. */
  lemma AcceptedExactly(r: Request)
    ensures Accepted(r) <==> Starts(r) || (r.kind == "env" && exists name, value :: IsEnvPayload(r.payload, name, value))
  {
    var parsed := ParseEnvPayload(r.payload);
    if parsed.Some? {
      EnvPayloadExactly(r.payload, parsed.value.0, parsed.value.1);
    }
    if name, value :| IsEnvPayload(r.payload, name, value) {
      EnvPayloadExactly(r.payload, name, value);
    }
  }

  /** The public key a request announces. */
  function Announced(r: Request): Option<seq<byte>> {
    if r.kind != "env" then None
    else
      match ParseEnvPayload(r.payload)
      case Some((name, value)) => if name == PUBKEY_VARIABLE then Some(value) else None
      case None => None
  }

  /** A key is announced exactly by an `env` request for this variable. */
  lemma AnnouncedExactly(r: Request, key: seq<byte>)
    ensures Announced(r) == Some(key) <==> r.kind == "env" && IsEnvPayload(r.payload, Ascii("SSHWEB_PUBKEY"), key)
  {
    EnvPayloadExactly(r.payload, PUBKEY_VARIABLE, key);
  }

  /** The last key announced, or the one the connection came with. */
  function KeyAfter(key: seq<byte>, requests: seq<Request>): seq<byte> {
    if requests == [] then key
    else
      var last := Announced(requests[|requests| - 1]);
      if last.Some? then last.value else KeyAfter(key, requests[..|requests| - 1])
  }

  lemma KeyAfterNext(key: seq<byte>, requests: seq<Request>, n: nat)
    requires n < |requests|
    ensures KeyAfter(key, requests[..n + 1]) ==
            if Announced(requests[n]).Some? then Announced(requests[n]).value else KeyAfter(key, requests[..n])
  {
    assert requests[..n + 1][..n] == requests[..n];
  }

  /** The last announcement counts, or the connection's key when there is none. */
  lemma {:induction false} LastKeyCounts(key: seq<byte>, requests: seq<Request>, n: nat)
    requires n <= |requests| && forall i :: n <= i < |requests| ==> Announced(requests[i]).None?
    ensures n == 0 ==> KeyAfter(key, requests) == key
    ensures n > 0 && Announced(requests[n - 1]).Some? ==> KeyAfter(key, requests) == Announced(requests[n - 1]).value
    decreases |requests|
  {
    if n < |requests| {
      LastKeyCounts(key, requests[..|requests| - 1], n);
    }
  }

  function RunOf(r: Request, session: Session): Run
    requires Starts(r)
  {
    if r.kind == "shell" then Shell(session) else Exec(ExecCommand(r.payload).value, session)
  }

  /** What runs: a shell, or the command that the payload opens with, for the session as it is. */
  lemma RunExactly(r: Request, session: Session, command: seq<byte>)
    requires Starts(r)
    ensures RunOf(r, session) == Shell(session) <==> r.kind == "shell"
    ensures RunOf(r, session) == Exec(command, session) <==>
            r.kind == "exec" && FitsUint32(command) && EncodedString(command) <= r.payload
  {
    ExecPayloadExactly(r.payload, command);
  }

  /**
    `handleSession`: at most one command or shell runs, the first request that can start
    one, with the connection's tier and fingerprint and the last key announced before it.
   */
  method HandleSession(requests: seq<Request>, connection: Session) returns (replies: seq<bool>, runs: seq<Run>)
    ensures |replies| <= |requests| && forall i :: 0 <= i < |replies| ==> replies[i] == Accepted(requests[i])
    ensures runs == [] ==> |replies| == |requests| && forall i :: 0 <= i < |requests| ==> !Starts(requests[i])
    ensures runs != [] ==>
      && replies != [] && var n := |replies| - 1;
      && Starts(requests[n]) && (forall i :: 0 <= i < n ==> !Starts(requests[i]))
      && runs == [RunOf(requests[n], connection.(publicKey := KeyAfter(connection.publicKey, requests[..n])))]
  {
    var sess := connection;
    replies, runs := [], [];
    for n := 0 to |requests|
      invariant |replies| == n && forall i :: 0 <= i < n ==> replies[i] == Accepted(requests[i])
      invariant runs == [] && forall i :: 0 <= i < n ==> !Starts(requests[i])
      invariant sess == connection.(publicKey := KeyAfter(connection.publicKey, requests[..n]))
    {
      var req := requests[n];
      KeyAfterNext(connection.publicKey, requests, n);
      if req.kind == "env" {
        var parsed := ParseEnvPayload(req.payload);
        if parsed.Some? {
          if parsed.value.0 == PUBKEY_VARIABLE {
            sess := sess.(publicKey := parsed.value.1);
          }
          replies := replies + [true];
        } else {
          replies := replies + [false];
        }
      } else if req.kind == "exec" {
        if |req.payload| < 4 {
          replies := replies + [false];
          continue;
        }
        var cmdLen := Uint32(req.payload, 0);
        if |req.payload| < 4 + cmdLen {
          replies := replies + [false];
          continue;
        }
        var cmd := req.payload[4..4 + cmdLen];
        replies := replies + [true];
        runs := runs + [Exec(cmd, sess)];
        return;
      } else if req.kind == "shell" {
        replies := replies + [true];
        runs := runs + [Shell(sess)];
        return;
      } else {
        replies := replies + [false];
      }
    }
  }

  // ----- One command line

  const STATUS_OK := 0
  const STATUS_FAILED := 1
  const STATUS_EMPTY := 2
  const STATUS_LIMITED := 3

  predicate Fails(a: Action) {
    a.Denied? || a.Unknown? || a.Usage? || a.NotConfigured? || a.NoContent?
  }

  /**
    `executeCommand`: what is done, and the exit status. `performed` tells whether an
    action that touches files, upstreams or the channel went well.
   */
  method ExecuteCommand(l: Limiter?, h: Handler, cmd: string, sess: Session, now: real, performed: Action -> bool)
    returns (done: Option<Action>, status: int)
    requires l != null ==> l.Valid()
    modifies if l != null then l.Repr() else {}
    ensures l != null ==> l.Valid() && l.Repr() == old(l.Repr())
    ensures l != null && Fields(cmd) == [] ==> l.State() == old(l.State())
    ensures l != null && Fields(cmd) != [] ==> l.State() == AllowTier(old(l.State()), sess.tier, now).0
    ensures done.Some? <==> Fields(cmd) != [] && (l == null || AllowTier(old(l.State()), sess.tier, now).1)
    ensures done.Some? ==> done.value == ExecuteBinary(h, Fields(cmd)[0], Fields(cmd)[1..], sess)
    ensures status == if Fields(cmd) == [] then 2
                      else if done.None? then 3
                      else if done.value.Denied? || done.value.Unknown? || done.value.Usage? || done.value.NotConfigured?
                              || done.value.NoContent? || !performed(done.value) then 1
                      else 0
  {
    var parts := Fields(cmd);
    if |parts| == 0 {
      return None, STATUS_EMPTY;
    }
    var admitted := Allow(l, sess.tier, now);
    if !admitted {
      return None, STATUS_LIMITED;
    }
    var action := ExecuteBinary(h, parts[0], parts[1..], sess);
    if Fails(action) || !performed(action) {
      return Some(action), STATUS_FAILED;
    }
    return Some(action), STATUS_OK;
  }
}
