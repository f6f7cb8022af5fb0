/**
  JSON-RPC over one pipe shared by many callers. Marshalling is a parameter: `encode` gives
  a message's bytes, `decode` what a line from the server parses to.
 */
module McpProxy {
  import opened Strings
  import opened Wrappers

  datatype Message = Request(id: int, name: string, params: string) | Notice(name: string, params: string)

  datatype Reply = Value(body: string) | Failure(code: int, message: string)

  /** A line that is not JSON, one without an id, or an answer. */
  datatype Line = Garbage | Notification | Answer(id: int, reply: Reply)

  /** The bytes of a message on the pipe. */
  function Wire(encode: Message -> string, m: Message): string {
    encode(m) + "\n"
  }

  predicate Answers(line: Line, id: int) {
    line.Answer? && line.id == id
  }

  // ----- One call, holding the mutex

  /** `trimCRLF` */
  method TrimCRLF(line: string) returns (b: string)
    ensures b <= line && (forall i :: |b| <= i < |line| ==> line[i] == '\n' || line[i] == '\r')
    ensures b != [] ==> b[|b| - 1] != '\n' && b[|b| - 1] != '\r'
    ensures b == Trimmed(line)
  {
    b := line;
    while |b| > 0 && (b[|b| - 1] == '\n' || b[|b| - 1] == '\r')
      invariant b <= line && (forall i :: |b| <= i < |line| ==> line[i] == '\n' || line[i] == '\r')
      invariant Trimmed(b) == Trimmed(line)
    {
      b := b[..|b| - 1];
    }
  }

  function Trimmed(line: string): string {
    if line != [] && (line[|line| - 1] == '\n' || line[|line| - 1] == '\r') then Trimmed(line[..|line| - 1]) else line
  }

  /** What a raw line means to a caller; a blank one is skipped before it is parsed. */
  function Meaning(decode: string -> Line, raw: string): Line {
    var b := Trimmed(raw);
    if b == [] then Garbage else decode(b)
  }

  /** The first of the lines that answers `id`. */
  ghost predicate IsFirstAnswer(decode: string -> Line, lines: seq<string>, id: int, n: nat) {
    && n < |lines| && Answers(Meaning(decode, lines[n]), id)
    && forall i :: 0 <= i < n ==> !Answers(Meaning(decode, lines[i]), id)
  }

  datatype Failed = WriteFailed | ReadFailed | RpcError(code: int, message: string)

  /** A line counts as an answer when it parses to one with that id once its line end is off. */
  lemma AnswersByValue(decode: string -> Line, text: string, ending: string, id: int)
    requires text != "" && text[|text| - 1] != '\n' && text[|text| - 1] != '\r'
    requires ending in {"", "\n", "\r\n"}
    ensures Answers(Meaning(decode, text + ending), id) <==> decode(text).Answer? && decode(text).id == id
  {
    EndingTrimmed(text, ending);
  }

  lemma OneEndOff(s: string, c: char)
    requires c == '\n' || c == '\r'
    ensures Trimmed(s + [c]) == Trimmed(s)
  {
    assert (s + [c])[..|s|] == s;
  }

  lemma EndingTrimmed(text: string, ending: string)
    requires text != "" && text[|text| - 1] != '\n' && text[|text| - 1] != '\r'
    requires ending in {"", "\n", "\r\n"}
    ensures Trimmed(text + ending) == text
  {
    if ending == "" {
      assert text + ending == text;
    } else if ending == "\n" {
      OneEndOff(text, '\n');
    } else {
      OneEndOff(text, '\r');
      OneEndOff(text + ['\r'], '\n');
      assert text + ending == (text + ['\r']) + ['\n'];
    }
  }

  class Proxy {
    const encode: Message -> string
    const decode: string -> Line
    var nextID: int
    var stdin: string
    /** The lines not yet read, each with its terminator. */
    var stdout: seq<string>

    constructor (encode: Message -> string, decode: string -> Line, stdout: seq<string>)
      ensures nextID == 0 && stdin == "" && this.stdout == stdout
      ensures this.encode == encode && this.decode == decode
    {
      this.encode, this.decode := encode, decode;
      nextID, stdin, this.stdout := 0, "", stdout;
    }

    /** The pipe to the server takes some opening of `data`, all of it unless it fails. */
    method Write(data: string) returns (failed: bool)
      modifies this`stdin
      ensures exists n :: 0 <= n <= |data| && stdin == old(stdin) + data[..n] && (!failed ==> n == |data|)
    {
      var n :| 0 <= n <= |data|;
      failed := n < |data|;
      stdin := stdin + data[..n];
      assert !failed ==> data[..n] == data;
    }

    /** `call`: one whole request line goes out; lines are read up to the first that answers it. */
    method Call(name: string, params: string) returns (r: Result<string, Failed>)
      modifies this
      ensures nextID == old(nextID) + 1
      ensures var wire := encode(Request(nextID, name, params)) + "\n";
        && (r == Err(WriteFailed) ==> stdout == old(stdout) && old(stdin) <= stdin <= old(stdin) + wire)
        && (r != Err(WriteFailed) ==> stdin == old(stdin) + wire)
      ensures r == Err(ReadFailed) ==>
        stdout == [] && forall i :: 0 <= i < |old(stdout)| ==> !Answers(Meaning(decode, old(stdout)[i]), nextID)
      ensures r.Ok? || r.error.RpcError? ==>
        && |stdout| < |old(stdout)|
        && var n := |old(stdout)| - |stdout| - 1;
        && IsFirstAnswer(decode, old(stdout), nextID, n) && stdout == old(stdout)[n + 1..]
        && match Meaning(decode, old(stdout)[n]).reply
           case Value(body) => r == Ok(body)
           case Failure(code, message) => r == Err(RpcError(code, message))
    {
      nextID := nextID + 1;
      var id := nextID;
      var failed := Write(Wire(encode, Request(id, name, params)));
      if failed {
        return Err(WriteFailed);
      }
      ghost var n := 0;
      while true
        invariant n <= |old(stdout)| && stdout == old(stdout)[n..]
        invariant nextID == id && stdin == old(stdin) + Wire(encode, Request(id, name, params))
        invariant forall i :: 0 <= i < n ==> !Answers(Meaning(decode, old(stdout)[i]), id)
        decreases |stdout|
      {
        if stdout == [] {
          return Err(ReadFailed);
        }
        var line := TrimCRLF(stdout[0]);
        stdout := stdout[1..];
        n := n + 1;
        if |line| == 0 {
          continue;
        }
        var resp := decode(line);
        if resp.Garbage? || resp.Notification? {
          continue;
        }
        if resp.id != id {
          continue;
        }
        match resp.reply
        case Failure(code, message) => return Err(RpcError(code, message));
        case Value(body) => return Ok(body);
      }
    }

    /** `notify` */
    method Notify(name: string, params: string) returns (failed: bool)
      modifies this`stdin
      ensures var wire := encode(Notice(name, params)) + "\n";
        old(stdin) <= stdin <= old(stdin) + wire && (!failed ==> stdin == old(stdin) + wire)
    {
      failed := Write(Wire(encode, Notice(name, params)));
    }
  }

  // ----- Many callers

  type Caller = nat

  /** Where a caller is: outside, putting the rest of its line on the pipe, or reading lines. */
  datatype Place = Outside | Writing(m: Message, left: string) | Reading(m: Message)

  /** A call that came back, with what it returned. */
  datatype Returned = Returned(m: Message, outcome: Result<Reply, Failed>)

  /**
    The shared state. `sent` holds the messages whose lines are whole, and `torn` tells
    whether the pipe ends in the middle of one. `readers` tells who took the pieces of each
    line read, `pieces` who took those of the line being read; a pipe that fails in the
    middle of a line is closed, since the rest of the line never comes.
   */
  datatype State = State(
    holder: Option<Caller>,
    nextID: int,
    places: map<Caller, Place>,
    stdin: string,
    sent: seq<Message>,
    torn: bool,
    stdout: seq<Line>,
    readers: seq<seq<Caller>>,
    pieces: seq<Caller>,
    closed: bool,
    pending: set<int>,
    answers: map<int, Reply>,
    returned: seq<Returned>)

  const INIT := State(None, 0, map[], "", [], false, [], [], [], false, {}, map[], [])

  /**
    The mutex is taken and released inside a call; everything in between can be interleaved.
    A line is read in any number of pieces, the last of which ends it.
   */
  datatype Step =
    | StartCall(caller: Caller, name: string, params: string)
    | StartNotify(caller: Caller, name: string, params: string)
    | WriteSome(caller: Caller, n: nat)
    | WriteFails(caller: Caller)
    | ReadPart(caller: Caller)
    | ReadLine(caller: Caller)
    | ReadFails(caller: Caller)
    | ServerAnswers(id: int, reply: Reply)
    | ServerNoise(line: Line)

  function PlaceOf(s: State, c: Caller): Place {
    if c in s.places then s.places[c] else Outside
  }

  predicate Enabled(s: State, step: Step) {
    match step
    case StartCall(c, _, _) => s.holder.None? && PlaceOf(s, c).Outside?
    case StartNotify(c, _, _) => s.holder.None? && PlaceOf(s, c).Outside?
    case WriteSome(c, n) => PlaceOf(s, c).Writing? && 0 < n <= |PlaceOf(s, c).left|
    case WriteFails(c) => PlaceOf(s, c).Writing?
    case ReadPart(c) => PlaceOf(s, c).Reading? && |s.readers| < |s.stdout| && !s.closed
    case ReadLine(c) => PlaceOf(s, c).Reading? && |s.readers| < |s.stdout| && !s.closed
    case ReadFails(c) => PlaceOf(s, c).Reading?
    case ServerAnswers(id, _) => id in s.pending
    case ServerNoise(line) => !line.Answer?
  }

  /** The caller leaves the critical section. */
  function Leave(s: State, c: Caller): State {
    s.(holder := None, places := s.places[c := Outside])
  }

  function Finish(s: State, c: Caller, m: Message, outcome: Result<Reply, Failed>): State {
    Leave(s, c).(returned := s.returned + [Returned(m, outcome)])
  }

  /** The server sees a request once its line is whole, unless it runs on from a torn one. */
  function LineDone(s: State, c: Caller, m: Message): State {
    var t := s.(sent := s.sent + [m], torn := false);
    if m.Notice? then Leave(t, c)
    else t.(places := t.places[c := Reading(m)], pending := t.pending + if s.torn then {} else {m.id})
  }

  function Apply(encode: Message -> string, s: State, step: Step): State
    requires Enabled(s, step)
  {
    match step
    case StartCall(c, name, params) =>
      var m := Request(s.nextID + 1, name, params);
      s.(holder := Some(c), nextID := m.id, places := s.places[c := Writing(m, Wire(encode, m))])
    case StartNotify(c, name, params) =>
      var m := Notice(name, params);
      s.(holder := Some(c), places := s.places[c := Writing(m, Wire(encode, m))])
    case WriteSome(c, n) =>
      var Writing(m, left) := PlaceOf(s, c);
      var t := s.(stdin := s.stdin + left[..n], places := s.places[c := Writing(m, left[n..])]);
      if n == |left| then LineDone(t, c, m) else t
    case WriteFails(c) =>
      var Writing(m, left) := PlaceOf(s, c);
      var t := s.(torn := s.torn || left != Wire(encode, m));
      Finish(t, c, m, Err(WriteFailed))
    case ReadPart(c) => s.(pieces := s.pieces + [c])
    case ReadLine(c) =>
      var m, line := PlaceOf(s, c).m, s.stdout[|s.readers|];
      var t := s.(readers := s.readers + [s.pieces + [c]], pieces := []);
      if m.Request? && Answers(line, m.id) then Finish(t, c, m, Ok(line.reply)) else t
    case ReadFails(c) => Finish(s.(closed := s.closed || s.pieces != []), c, PlaceOf(s, c).m, Err(ReadFailed))
    case ServerAnswers(id, reply) =>
      s.(stdout := s.stdout + [Answer(id, reply)], pending := s.pending - {id}, answers := s.answers[id := reply])
    case ServerNoise(line) => s.(stdout := s.stdout + [line])
  }

  /** The state a run leads to, if each of its steps can be taken. */
  function After(encode: Message -> string, steps: seq<Step>): Option<State> {
    if steps == [] then Some(INIT)
    else
      var n := |steps| - 1;
      var before := After(encode, steps[..n]);
      if before.None? || !Enabled(before.value, steps[n]) then None
      else Some(Apply(encode, before.value, steps[n]))
  }

  // ----- What every step keeps

  /** Only the holder of the mutex is inside. */
  ghost predicate Exclusive(s: State) {
    forall c: Caller :: !PlaceOf(s, c).Outside? <==> s.holder == Some(c)
  }

  /** Where the holder of the mutex is. */
  function Inside(s: State): Place {
    if s.holder.None? then Outside else PlaceOf(s, s.holder.value)
  }

  /** The id of the call in progress. */
  predicate Asking(p: Place, id: int) {
    !p.Outside? && p.m.Request? && p.m.id == id
  }

  ghost predicate IdsIncrease(sent: seq<Message>) {
    forall i, j :: 0 <= i < j < |sent| && sent[i].Request? && sent[j].Request? ==> sent[i].id < sent[j].id
  }

  ghost predicate IdsBelow(sent: seq<Message>, bound: int) {
    forall i :: 0 <= i < |sent| && sent[i].Request? ==> sent[i].id < bound
  }

  /** The call in progress has the last id handed out. */
  ghost predicate LastId(s: State) {
    var p := Inside(s);
    && (!p.Outside? && p.m.Request? ==> p.m.id == s.nextID)
    && (p.Reading? ==> p.m.Request?)
  }

  /** Ids only grow, up to the last one handed out. */
  ghost predicate IdsInOrder(s: State, ms: seq<Message>) {
    && IdsIncrease(ms) && IdsBelow(ms, s.nextID + 1)
    && (Inside(s).Writing? && Inside(s).m.Request? ==> IdsBelow(ms, s.nextID))
  }

  /** The requests the server knows of are old ones, and none is both answered and pending. */
  ghost predicate Known(s: State) {
    var p := Inside(s);
    forall id :: id in s.pending || id in s.answers ==>
      id <= s.nextID && !(p.Writing? && Asking(p, id)) && !(id in s.pending && id in s.answers)
  }

  /** Every answer on the pipe is the server's one answer to that id. */
  ghost predicate AnsweredOnce(s: State) {
    && (forall i :: 0 <= i < |s.stdout| && s.stdout[i].Answer? ==>
          s.stdout[i].id in s.answers && s.answers[s.stdout[i].id] == s.stdout[i].reply)
    && (forall i, j :: 0 <= i < j < |s.stdout| && s.stdout[i].Answer? && s.stdout[j].Answer? ==>
          s.stdout[i].id != s.stdout[j].id)
  }

  ghost predicate IsOwnAnswer(s: State, r: Returned) {
    r.outcome.Ok? ==> r.m.Request? && r.m.id in s.answers && s.answers[r.m.id] == r.outcome.value
  }

  ghost predicate OwnAnswers(s: State) {
    forall i :: 0 <= i < |s.returned| ==> IsOwnAnswer(s, s.returned[i])
  }

  ghost predicate ErrorFree(s: State) {
    forall i :: 0 <= i < |s.returned| ==> s.returned[i].outcome.Ok?
  }

  /** Not answered yet, or answered on a line nobody has read. */
  ghost predicate Outstanding(s: State, id: int) {
    || id in s.pending
    || exists i :: |s.readers| <= i < |s.stdout| && Answers(s.stdout[i], id)
  }

  ghost predicate OnlyOwnOutstanding(s: State) {
    ErrorFree(s) ==> forall id :: Outstanding(s, id) ==> Inside(s).Reading? && Asking(Inside(s), id)
  }

  // ----- What is on the pipe to the server

  /** What one caller put on the pipe for one message. */
  datatype Chunk = Chunk(m: Message, text: string)

  function Texts(chunks: seq<Chunk>): string {
    if chunks == [] then "" else Texts(chunks[..|chunks| - 1]) + chunks[|chunks| - 1].text
  }

  function Attempts(chunks: seq<Chunk>): seq<Message> {
    seq(|chunks|, i requires 0 <= i < |chunks| => chunks[i].m)
  }

  predicate IsWhole(encode: Message -> string, chunk: Chunk) {
    chunk.text == Wire(encode, chunk.m)
  }

  /** The messages whose lines are whole. */
  function WholeOnes(encode: Message -> string, chunks: seq<Chunk>): seq<Message> {
    if chunks == [] then []
    else
      var n := |chunks| - 1;
      WholeOnes(encode, chunks[..n]) + if IsWhole(encode, chunks[n]) then [chunks[n].m] else []
  }

  /** The last thing on the pipe is the opening of a line. */
  predicate RunsOn(encode: Message -> string, chunks: seq<Chunk>) {
    chunks != [] &&
    var n := |chunks| - 1;
    !IsWhole(encode, chunks[n]) && (chunks[n].text != "" || RunsOn(encode, chunks[..n]))
  }

  ghost predicate WriteFailedFor(s: State, m: Message) {
    exists i :: 0 <= i < |s.returned| && s.returned[i] == Returned(m, Err(WriteFailed))
  }

  /** Every chunk opens its message's line, and one that is not all of it belongs to a failed write. */
  ghost predicate Openings(encode: Message -> string, s: State, chunks: seq<Chunk>) {
    forall i :: 0 <= i < |chunks| ==>
      chunks[i].text <= Wire(encode, chunks[i].m) && (IsWhole(encode, chunks[i]) || WriteFailedFor(s, chunks[i].m))
  }

  /** What of the current line is on the pipe. */
  ghost predicate PartOfLine(encode: Message -> string, p: Place, part: string) {
    if p.Writing? then p.left != "" && part + p.left == Wire(encode, p.m) else part == ""
  }

  /** The server's input: one chunk for each message before, and the part of the current line. */
  ghost predicate PipeHolds(encode: Message -> string, s: State, chunks: seq<Chunk>, part: string) {
    && s.stdin == Texts(chunks) + part && PartOfLine(encode, Inside(s), part)
    && Openings(encode, s, chunks) && IdsInOrder(s, Attempts(chunks))
    && WholeOnes(encode, chunks) == s.sent && RunsOn(encode, chunks) == s.torn
  }

  // ----- Who reads

  /** The pieces of every line read went to one caller, and those of the current line to the holder. */
  ghost predicate LinesGoWhole(s: State) {
    && (forall i :: 0 <= i < |s.readers| ==> ToOne(s.readers[i]))
    && (!s.closed && s.pieces != [] ==> Inside(s).Reading?)
    && (!s.closed ==> forall c :: c in s.pieces ==> s.holder == Some(c))
  }

  ghost predicate ToOne(callers: seq<Caller>) {
    callers != [] && forall c :: c in callers ==> c == callers[0]
  }

  ghost predicate Inv(encode: Message -> string, s: State) {
    && Exclusive(s) && LastId(s) && IdsInOrder(s, s.sent) && Known(s) && AnsweredOnce(s) && OwnAnswers(s)
    && OnlyOwnOutstanding(s) && LinesGoWhole(s) && |s.readers| <= |s.stdout|
  }

  lemma ExclusiveKept(encode: Message -> string, s: State, step: Step)
    requires Exclusive(s) && Enabled(s, step)
    ensures Exclusive(Apply(encode, s, step))
  {
  }

  lemma IdsKept(encode: Message -> string, s: State, step: Step)
    requires Exclusive(s) && LastId(s) && IdsInOrder(s, s.sent) && Enabled(s, step)
    ensures IdsInOrder(Apply(encode, s, step), Apply(encode, s, step).sent)
  {
    var t := Apply(encode, s, step);
    if step.WriteSome? && step.n == |PlaceOf(s, step.caller).left| {
      OneMoreId(s, t, s.sent, PlaceOf(s, step.caller).m);
    } else {
      SameIds(encode, s, step, s.sent);
    }
  }

  /** Every other step leaves the ids in order, with room for the next. */
  lemma SameIds(encode: Message -> string, s: State, step: Step, ms: seq<Message>)
    requires Exclusive(s) && IdsInOrder(s, ms) && Enabled(s, step)
    ensures IdsInOrder(Apply(encode, s, step), ms)
  {
  }

  lemma LastIdKept(encode: Message -> string, s: State, step: Step)
    requires Exclusive(s) && LastId(s) && Enabled(s, step)
    ensures LastId(Apply(encode, s, step))
  {
  }

  lemma LinesGoWholeKept(encode: Message -> string, s: State, step: Step)
    requires Exclusive(s) && LinesGoWhole(s) && Enabled(s, step)
    ensures LinesGoWhole(Apply(encode, s, step))
  {
    if step.ReadLine? {
      assert !PlaceOf(s, step.caller).Outside?;
      forall c | c in s.pieces + [step.caller]
        ensures c == step.caller
      {
      }
      assert (s.pieces + [step.caller])[0] in s.pieces + [step.caller];
    }
  }

  lemma KnownKept(encode: Message -> string, s: State, step: Step)
    requires Exclusive(s) && LastId(s) && Known(s) && Enabled(s, step)
    ensures Known(Apply(encode, s, step))
  {
  }

  lemma AnsweredOnceKept(encode: Message -> string, s: State, step: Step)
    requires Exclusive(s) && Known(s) && AnsweredOnce(s) && Enabled(s, step)
    ensures AnsweredOnce(Apply(encode, s, step))
  {
  }

  lemma OwnAnswersKept(encode: Message -> string, s: State, step: Step)
    requires Exclusive(s) && Known(s) && AnsweredOnce(s) && OwnAnswers(s) && Enabled(s, step)
    ensures OwnAnswers(Apply(encode, s, step))
  {
  }

  lemma OutstandingKept(encode: Message -> string, s: State, step: Step)
    requires Exclusive(s) && LastId(s) && Known(s) && AnsweredOnce(s) && OnlyOwnOutstanding(s) && Enabled(s, step)
    requires |s.readers| <= |s.stdout|
    ensures OnlyOwnOutstanding(Apply(encode, s, step))
  {
    var t := Apply(encode, s, step);
    ErrorFreeBefore(encode, s, step);
    if ErrorFree(t) {
      forall id | Outstanding(t, id)
        ensures Inside(t).Reading? && Asking(Inside(t), id)
      {
        OutstandingBefore(encode, s, step, id);
        if step.ReadLine? && Answers(s.stdout[|s.readers|], id) {
          AnswerTaken(encode, s, step.caller, id);
        }
      }
    }
  }

  lemma ErrorFreeBefore(encode: Message -> string, s: State, step: Step)
    requires Enabled(s, step)
    ensures ErrorFree(Apply(encode, s, step)) ==> ErrorFree(s) && !step.WriteFails? && !step.ReadFails?
  {
    var t := Apply(encode, s, step);
    assert forall i :: 0 <= i < |s.returned| ==> t.returned[i] == s.returned[i];
    assert step.WriteFails? || step.ReadFails? ==> t.returned[|s.returned|].outcome.Err?;
  }

  /** Once a caller has taken its answer off the pipe, that answer is no longer outstanding. */
  lemma AnswerTaken(encode: Message -> string, s: State, c: Caller, id: int)
    requires Exclusive(s) && Known(s) && AnsweredOnce(s) && Enabled(s, ReadLine(c))
    requires Asking(PlaceOf(s, c), id) && Answers(s.stdout[|s.readers|], id)
    ensures !Outstanding(Apply(encode, s, ReadLine(c)), id)
  {
  }

  /** What is outstanding after a step was so before, or is the request just sent. */
  lemma OutstandingBefore(encode: Message -> string, s: State, step: Step, id: int)
    requires Enabled(s, step) && Outstanding(Apply(encode, s, step), id)
    ensures Outstanding(s, id) || (step.WriteSome? && Asking(PlaceOf(s, step.caller), id))
  {
    var t := Apply(encode, s, step);
    if id !in t.pending {
      var i :| |t.readers| <= i < |t.stdout| && Answers(t.stdout[i], id);
      assert i < |s.stdout| ==> Answers(s.stdout[i], id);
    }
  }

  lemma OneMoreChunk(encode: Message -> string, chunks: seq<Chunk>, c: Chunk)
    ensures Texts(chunks + [c]) == Texts(chunks) + c.text
    ensures Attempts(chunks + [c]) == Attempts(chunks) + [c.m]
    ensures WholeOnes(encode, chunks + [c]) == WholeOnes(encode, chunks) + if IsWhole(encode, c) then [c.m] else []
    ensures RunsOn(encode, chunks + [c]) == (!IsWhole(encode, c) && (c.text != "" || RunsOn(encode, chunks)))
  {
    assert (chunks + [c])[..|chunks|] == chunks;
  }

  lemma OneMoreOpening(encode: Message -> string, s: State, t: State, chunks: seq<Chunk>, c: Chunk)
    requires Openings(encode, s, chunks) && s.returned <= t.returned
    requires c.text <= Wire(encode, c.m) && (IsWhole(encode, c) || WriteFailedFor(t, c.m))
    ensures Openings(encode, t, chunks + [c])
  {
    OpeningsStay(encode, s, t, chunks);
  }

  lemma OpeningsStay(encode: Message -> string, s: State, t: State, chunks: seq<Chunk>)
    requires Openings(encode, s, chunks) && s.returned <= t.returned
    ensures Openings(encode, t, chunks)
  {
    forall i | 0 <= i < |chunks| && WriteFailedFor(s, chunks[i].m)
      ensures WriteFailedFor(t, chunks[i].m)
    {
      var j :| 0 <= j < |s.returned| && s.returned[j] == Returned(chunks[i].m, Err(WriteFailed));
      assert t.returned[j] == s.returned[j];
    }
  }

  lemma PipeAfterPart(encode: Message -> string, s: State, c: Caller, n: nat, chunks: seq<Chunk>, part: string)
    requires Exclusive(s) && PipeHolds(encode, s, chunks, part)
    requires Enabled(s, WriteSome(c, n)) && n < |PlaceOf(s, c).left|
    ensures PipeHolds(encode, Apply(encode, s, WriteSome(c, n)), chunks, part + PlaceOf(s, c).left[..n])
  {
    var left := PlaceOf(s, c).left;
    var t := Apply(encode, s, WriteSome(c, n));
    assert Inside(t) == Writing(PlaceOf(s, c).m, left[n..]);
    assert part + left[..n] + left[n..] == part + left;
    assert t.stdin == Texts(chunks) + (part + left[..n]);
    OpeningsStay(encode, s, t, chunks);
  }

  lemma PipeAfterLine(encode: Message -> string, s: State, c: Caller, n: nat, chunks: seq<Chunk>, part: string)
    requires Exclusive(s) && LastId(s) && PipeHolds(encode, s, chunks, part)
    requires Enabled(s, WriteSome(c, n)) && n == |PlaceOf(s, c).left|
    ensures var m := PlaceOf(s, c).m;
      PipeHolds(encode, Apply(encode, s, WriteSome(c, n)), chunks + [Chunk(m, Wire(encode, m))], "")
  {
    var m, left := PlaceOf(s, c).m, PlaceOf(s, c).left;
    var t, last := Apply(encode, s, WriteSome(c, n)), Chunk(m, Wire(encode, m));
    OneMoreChunk(encode, chunks, last);
    OneMoreOpening(encode, s, t, chunks, last);
    OneMoreId(s, t, Attempts(chunks), m);
    RestWritten(Texts(chunks), part, left);
  }

  lemma RestWritten(before: string, part: string, left: string)
    ensures (before + part) + left[..|left|] == (before + (part + left)) + ""
  {
  }

  /** The message being written gets the next place, with the last id if it has one. */
  lemma OneMoreId(s: State, t: State, ms: seq<Message>, m: Message)
    requires LastId(s) && IdsInOrder(s, ms) && Inside(s).Writing? && Inside(s).m == m
    requires t.nextID == s.nextID && !Inside(t).Writing?
    ensures IdsInOrder(t, ms + [m])
  {
  }

  lemma PipeAfterTear(encode: Message -> string, s: State, c: Caller, chunks: seq<Chunk>, part: string)
    requires Exclusive(s) && LastId(s) && PipeHolds(encode, s, chunks, part) && Enabled(s, WriteFails(c))
    ensures PipeHolds(encode, Apply(encode, s, WriteFails(c)), chunks + [Chunk(PlaceOf(s, c).m, part)], "")
  {
    var m, left := PlaceOf(s, c).m, PlaceOf(s, c).left;
    var t, last := Apply(encode, s, WriteFails(c)), Chunk(m, part);
    OneMoreChunk(encode, chunks, last);
    assert t.returned[|s.returned|] == Returned(m, Err(WriteFailed));
    assert |part + left| == |part| + |left|;
    OneMoreOpening(encode, s, t, chunks, last);
    OneMoreId(s, t, Attempts(chunks), m);
    assert part == "" <==> left == Wire(encode, m);
    assert t.stdin == Texts(chunks + [last]) + "";
  }

  lemma PipeAfterOther(encode: Message -> string, s: State, step: Step, chunks: seq<Chunk>, part: string)
    requires Exclusive(s) && PipeHolds(encode, s, chunks, part) && Enabled(s, step)
    requires !step.WriteSome? && !step.WriteFails?
    ensures PipeHolds(encode, Apply(encode, s, step), chunks, part)
  {
    SameIds(encode, s, step, Attempts(chunks));
    OpeningsStay(encode, s, Apply(encode, s, step), chunks);
  }

  lemma PipeAfter(encode: Message -> string, s: State, step: Step, chunks: seq<Chunk>, part: string)
    returns (chunks': seq<Chunk>, part': string)
    requires Exclusive(s) && LastId(s) && PipeHolds(encode, s, chunks, part) && Enabled(s, step)
    ensures PipeHolds(encode, Apply(encode, s, step), chunks', part')
  {
    chunks', part' := chunks, part;
    if step.WriteFails? {
      chunks', part' := chunks + [Chunk(PlaceOf(s, step.caller).m, part)], "";
      PipeAfterTear(encode, s, step.caller, chunks, part);
    } else if !step.WriteSome? {
      PipeAfterOther(encode, s, step, chunks, part);
    } else if step.n < |PlaceOf(s, step.caller).left| {
      part' := part + PlaceOf(s, step.caller).left[..step.n];
      PipeAfterPart(encode, s, step.caller, step.n, chunks, part);
    } else {
      var m := PlaceOf(s, step.caller).m;
      chunks', part' := chunks + [Chunk(m, Wire(encode, m))], "";
      PipeAfterLine(encode, s, step.caller, step.n, chunks, part);
    }
  }

  lemma {:induction false} RunKeepsInv(encode: Message -> string, steps: seq<Step>)
    requires After(encode, steps).Some?
    ensures Inv(encode, After(encode, steps).value)
  {
    if steps != [] {
      var n := |steps| - 1;
      RunKeepsInv(encode, steps[..n]);
      StepKeepsInv(encode, After(encode, steps[..n]).value, steps[n]);
    }
  }

  lemma StepKeepsInv(encode: Message -> string, s: State, step: Step)
    requires Inv(encode, s) && Enabled(s, step)
    ensures Inv(encode, Apply(encode, s, step))
  {
    ExclusiveKept(encode, s, step);
    LastIdKept(encode, s, step);
    IdsKept(encode, s, step);
    KnownKept(encode, s, step);
    AnsweredOnceKept(encode, s, step);
    OwnAnswersKept(encode, s, step);
    OutstandingKept(encode, s, step);
    LinesGoWholeKept(encode, s, step);
  }

  // ----- What holds of every run

  /** No two callers are ever inside at once, and ids on the pipe only grow. */
  lemma OneAtATime(encode: Message -> string, steps: seq<Step>, c: Caller, d: Caller)
    requires After(encode, steps).Some?
    ensures var s := After(encode, steps).value;
      && (!PlaceOf(s, c).Outside? && !PlaceOf(s, d).Outside? ==> c == d)
      && IdsIncrease(s.sent)
  {
    RunKeepsInv(encode, steps);
  }

  /** Every call that succeeds returns the server's one answer to its own request. */
  lemma CallsGetTheirOwnAnswer(encode: Message -> string, steps: seq<Step>, i: nat)
    requires After(encode, steps).Some? && i < |After(encode, steps).value.returned|
    requires After(encode, steps).value.returned[i].outcome.Ok?
    ensures var s := After(encode, steps).value;
      var r := s.returned[i];
      r.m.Request? && r.m.id in s.answers && r.outcome == Ok(s.answers[r.m.id])
  {
    RunKeepsInv(encode, steps);
  }

  /** After an error-free history a free mutex means that no answer is left to come. */
  lemma NothingOutstandingWhenFree(encode: Message -> string, steps: seq<Step>, id: int)
    requires After(encode, steps).Some?
    requires ErrorFree(After(encode, steps).value) && After(encode, steps).value.holder.None?
    ensures !Outstanding(After(encode, steps).value, id)
  {
    RunKeepsInv(encode, steps);
  }

  /**
    Lines are never interleaved, in any run: the server's input is one chunk after another,
    each an opening of one message's line with growing ids, and the part of the current one.
    Only a failed write leaves a chunk that is not the whole line.
   */
  lemma RequestLinesNotInterleaved(encode: Message -> string, steps: seq<Step>)
    requires After(encode, steps).Some?
    ensures exists chunks, part :: PipeHolds(encode, After(encode, steps).value, chunks, part)
  {
    var chunks, part := PipeOfRun(encode, steps);
  }

  lemma PipeAtStart(encode: Message -> string, s: State) returns (chunks: seq<Chunk>, part: string)
    requires s == INIT
    ensures PipeHolds(encode, s, chunks, part)
  {
    chunks, part := [], "";
  }

  lemma {:induction false} PipeOfRun(encode: Message -> string, steps: seq<Step>) returns (chunks: seq<Chunk>, part: string)
    requires After(encode, steps).Some?
    ensures PipeHolds(encode, After(encode, steps).value, chunks, part)
  {
    if steps == [] {
      chunks, part := PipeAtStart(encode, INIT);
    } else {
      var n := |steps| - 1;
      chunks, part := PipeOfRun(encode, steps[..n]);
      RunKeepsInv(encode, steps[..n]);
      chunks, part := PipeAfter(encode, After(encode, steps[..n]).value, steps[n], chunks, part);
    }
  }

  function WholeLines(encode: Message -> string, sent: seq<Message>): string {
    if sent == [] then "" else WholeLines(encode, sent[..|sent| - 1]) + Wire(encode, sent[|sent| - 1])
  }

  lemma {:induction false} AllWhole(encode: Message -> string, chunks: seq<Chunk>)
    requires forall i :: 0 <= i < |chunks| ==> IsWhole(encode, chunks[i])
    ensures Texts(chunks) == WholeLines(encode, WholeOnes(encode, chunks))
  {
    if chunks != [] {
      var n := |chunks| - 1;
      AllWhole(encode, chunks[..n]);
      assert WholeOnes(encode, chunks)[..|WholeOnes(encode, chunks)| - 1] == WholeOnes(encode, chunks[..n]);
    }
  }

  /** While no write has failed, what is on the pipe between messages is whole lines only. */
  lemma WholeLinesUntilAWriteFails(encode: Message -> string, steps: seq<Step>)
    requires After(encode, steps).Some?
    requires forall m :: !WriteFailedFor(After(encode, steps).value, m)
    requires !Inside(After(encode, steps).value).Writing?
    ensures After(encode, steps).value.stdin == WholeLines(encode, After(encode, steps).value.sent)
  {
    var s := After(encode, steps).value;
    RequestLinesNotInterleaved(encode, steps);
    var chunks, part :| PipeHolds(encode, s, chunks, part);
    AllWhole(encode, chunks);
    assert Texts(chunks) + part == Texts(chunks);
  }

  lemma StepReadsOn(encode: Message -> string, s: State, step: Step)
    requires Enabled(s, step)
    ensures s.readers <= Apply(encode, s, step).readers && s.stdout <= Apply(encode, s, step).stdout
  {
  }

  /** However many pieces it is read in, and whoever waits, each line goes whole to one caller. */
  lemma EachLineGoesToOneCaller(encode: Message -> string, steps: seq<Step>, i: nat)
    requires After(encode, steps).Some? && i < |After(encode, steps).value.readers|
    ensures exists c :: c in After(encode, steps).value.readers[i]
    ensures forall c, d :: c in After(encode, steps).value.readers[i] && d in After(encode, steps).value.readers[i] ==> c == d
  {
    RunKeepsInv(encode, steps);
    var callers := After(encode, steps).value.readers[i];
    assert ToOne(callers) && callers[0] in callers;
  }

  /** What has been read stays read, in order. */
  lemma {:induction false} LinesReadOnce(encode: Message -> string, steps: seq<Step>, k: nat)
    requires After(encode, steps).Some? && k <= |steps|
    ensures After(encode, steps[..k]).Some?
    ensures After(encode, steps[..k]).value.readers <= After(encode, steps).value.readers
    ensures After(encode, steps[..k]).value.stdout <= After(encode, steps).value.stdout
    decreases |steps|
  {
    if k == |steps| {
      assert steps[..k] == steps;
    } else {
      var n := |steps| - 1;
      LinesReadOnce(encode, steps[..n], k);
      assert steps[..n][..k] == steps[..k];
      StepReadsOn(encode, After(encode, steps[..n]).value, steps[n]);
    }
  }

  // ----- What a server that reads lines sees

  /** No message contains a line end: JSON escapes them. */
  ghost predicate OneLineEach(encode: Message -> string) {
    forall m :: '\n' !in encode(m)
  }

  /**
    The lines, and the opening of the next, after the chunks. What a failed write left of a
    message runs into the message after it, and so on until one is whole.
   */
  function ServerSees(encode: Message -> string, chunks: seq<Chunk>): (seq<string>, string) {
    if chunks == [] then ([], "")
    else
      var n := |chunks| - 1;
      var (lines, opening) := ServerSees(encode, chunks[..n]);
      if IsWhole(encode, chunks[n]) then (lines + [opening + encode(chunks[n].m)], "")
      else (lines, opening + chunks[n].text)
  }

  /** The lines, each with its end. */
  function Terminated(lines: seq<string>): string {
    if lines == [] then "" else lines[0] + (['\n'] + Terminated(lines[1..]))
  }

  ghost predicate NoEnds(lines: seq<string>) {
    forall i :: 0 <= i < |lines| ==> '\n' !in lines[i]
  }

  lemma {:induction false} TerminatedSnoc(lines: seq<string>, line: string)
    ensures Terminated(lines + [line]) == Terminated(lines) + (line + "\n")
  {
    if lines == [] {
      assert [line][1..] == [];
    } else {
      assert (lines + [line])[1..] == lines[1..] + [line];
      TerminatedSnoc(lines[1..], line);
    }
  }

  lemma {:induction false} SplitTerminated(lines: seq<string>, opening: string)
    requires NoEnds(lines) && '\n' !in opening
    ensures Split(Terminated(lines) + opening, '\n') == lines + [opening]
  {
    if lines == [] {
      assert Terminated(lines) + opening == opening;
    } else {
      SplitTerminated(lines[1..], opening);
      LineFirst(lines[0], Terminated(lines[1..]), opening);
      FirstPart(lines[0], '\n', Terminated(lines[1..]) + opening);
      assert [lines[0]] + (lines[1..] + [opening]) == lines + [opening];
    }
  }

  lemma LineFirst(first: string, rest: string, opening: string)
    ensures (first + (['\n'] + rest)) + opening == first + (['\n'] + (rest + opening))
  {
  }

  lemma OpeningHasNoEnd(encode: Message -> string, m: Message, text: string)
    requires '\n' !in encode(m) && text <= Wire(encode, m) && text != Wire(encode, m)
    ensures '\n' !in text
  {
    assert text <= encode(m);
  }

  lemma {:induction false} ServerSeesText(encode: Message -> string, s: State, chunks: seq<Chunk>)
    requires OneLineEach(encode) && Openings(encode, s, chunks)
    ensures var (lines, opening) := ServerSees(encode, chunks);
      Texts(chunks) == Terminated(lines) + opening && NoEnds(lines) && '\n' !in opening
    decreases |chunks|
  {
    if chunks != [] {
      var n := |chunks| - 1;
      var c := chunks[n];
      ServerSeesText(encode, s, chunks[..n]);
      var (lines, opening) := ServerSees(encode, chunks[..n]);
      if IsWhole(encode, c) {
        assert '\n' !in encode(c.m);
        TerminatedSnoc(lines, opening + encode(c.m));
        Regrouped(Terminated(lines), opening, encode(c.m), "\n");
      } else {
        OpeningHasNoEnd(encode, c.m, c.text);
        Regrouped(Terminated(lines), opening, c.text, "");
      }
    }
  }

  lemma Regrouped(a: string, b: string, c: string, d: string)
    ensures (a + b) + (c + d) == a + ((b + c) + d) == (a + ((b + c) + d)) + ""
    ensures (a + b) + c == a + (b + c)
  {
  }

  /**
    In every run the server's input, split at its line ends, is the lines `ServerSees` says,
    and an opening that goes on with what there is of the current message.
   */
  lemma LinesTheServerSees(encode: Message -> string, steps: seq<Step>) returns (chunks: seq<Chunk>, part: string)
    requires After(encode, steps).Some? && OneLineEach(encode)
    ensures PipeHolds(encode, After(encode, steps).value, chunks, part)
    ensures var (lines, opening) := ServerSees(encode, chunks);
      Split(After(encode, steps).value.stdin, '\n') == lines + [opening + part]
  {
    chunks, part := PipeOfRun(encode, steps);
    var s := After(encode, steps).value;
    ServerSeesText(encode, s, chunks);
    var (lines, opening) := ServerSees(encode, chunks);
    if Inside(s).Writing? {
      assert |part + Inside(s).left| == |part| + |Inside(s).left|;
      assert part <= Wire(encode, Inside(s).m);
      OpeningHasNoEnd(encode, Inside(s).m, part);
    }
    Regrouped(Terminated(lines), opening, part, "");
    SplitTerminated(lines, opening + part);
  }

  /** The encodings of the messages, one after another. */
  function Encoded(encode: Message -> string, sent: seq<Message>): seq<string> {
    seq(|sent|, i requires 0 <= i < |sent| => encode(sent[i]))
  }

  lemma EncodedSnoc(encode: Message -> string, sent: seq<Message>, m: Message)
    ensures Encoded(encode, sent + [m]) == Encoded(encode, sent) + [encode(m)]
  {
  }

  lemma {:induction false} WholeIsSeenWhole(encode: Message -> string, chunks: seq<Chunk>)
    requires forall i :: 0 <= i < |chunks| ==> IsWhole(encode, chunks[i])
    ensures ServerSees(encode, chunks) == (Encoded(encode, WholeOnes(encode, chunks)), "")
  {
    if chunks == [] {
      assert Encoded(encode, []) == [];
    } else {
      var n := |chunks| - 1;
      WholeIsSeenWhole(encode, chunks[..n]);
      var m := chunks[n].m;
      assert "" + encode(m) == encode(m);
      assert ServerSees(encode, chunks) == (ServerSees(encode, chunks[..n]).0 + [encode(m)], "");
      EncodedSnoc(encode, WholeOnes(encode, chunks[..n]), m);
    }
  }

  /**
    While no write has failed, a server that reads lines sees, between messages, exactly the
    messages sent, in order, and nothing else.
   */
  lemma ServerSeesMessages(encode: Message -> string, steps: seq<Step>)
    requires After(encode, steps).Some? && OneLineEach(encode)
    requires forall m :: !WriteFailedFor(After(encode, steps).value, m)
    requires !Inside(After(encode, steps).value).Writing?
    ensures var s := After(encode, steps).value;
      Split(s.stdin, '\n') == Encoded(encode, s.sent) + [""]
  {
    var chunks, part := LinesTheServerSees(encode, steps);
    WholeIsSeenWhole(encode, chunks);
    assert "" + part == "";
  }

  /** `torn` says exactly that an opening is left, into which the next message runs. */
  lemma {:induction false} TornMeansOpening(encode: Message -> string, s: State, chunks: seq<Chunk>)
    requires Openings(encode, s, chunks)
    ensures RunsOn(encode, chunks) <==> ServerSees(encode, chunks).1 != ""
    decreases |chunks|
  {
    if chunks != [] {
      TornMeansOpening(encode, s, chunks[..|chunks| - 1]);
    }
  }

  // ----- One call that nothing interrupts

  /** The state reached by taking the steps in turn. */
  function RunFrom(encode: Message -> string, s: State, steps: seq<Step>): Option<State>
    decreases steps
  {
    if steps == [] then Some(s)
    else if !Enabled(s, steps[0]) then None
    else RunFrom(encode, Apply(encode, s, steps[0]), steps[1..])
  }

  /** The `n`-th line nobody has read yet is the first that answers `id`. */
  ghost predicate NextAnswer(s: State, id: int, n: nat) {
    && s.pieces == [] && !s.closed
    && |s.readers| + n < |s.stdout| && Answers(s.stdout[|s.readers| + n], id)
    && forall i :: |s.readers| <= i < |s.readers| + n ==> !Answers(s.stdout[i], id)
  }

  function Reads(c: Caller, n: nat): seq<Step> {
    if n == 0 then [ReadLine(c)] else [ReadLine(c)] + Reads(c, n - 1)
  }

  lemma {:induction false} ReadUpToAnswer(encode: Message -> string, s: State, c: Caller, m: Message, n: nat)
    requires m.Request? && PlaceOf(s, c) == Reading(m) && NextAnswer(s, m.id, n)
    ensures var t := RunFrom(encode, s, Reads(c, n));
      && t.Some? && t.value.holder.None? && |t.value.readers| == |s.readers| + n + 1
      && t.value.returned == s.returned + [Returned(m, Ok(s.stdout[|s.readers| + n].reply))]
      && t.value.stdout == s.stdout && t.value.stdin == s.stdin && t.value.nextID == s.nextID
    decreases n
  {
    var next := Apply(encode, s, ReadLine(c));
    if n > 0 {
      ReadUpToAnswer(encode, next, c, m, n - 1);
      assert Reads(c, n)[1..] == Reads(c, n - 1);
    } else {
      assert Reads(c, n)[1..] == [];
      assert RunFrom(encode, next, []) == Some(next);
    }
  }

  /**
    Steps of one caller in a row do to the shared state what `Proxy.Call` does to its
    fields: the next id, one whole line, and the lines up to the first answer.
   */
  lemma UninterruptedCall(encode: Message -> string, s: State, c: Caller, name: string, params: string, n: nat)
    requires s.holder.None? && PlaceOf(s, c).Outside? && NextAnswer(s, s.nextID + 1, n)
    ensures var m := Request(s.nextID + 1, name, params);
      var t := RunFrom(encode, s, [StartCall(c, name, params), WriteSome(c, |Wire(encode, m)|)] + Reads(c, n));
      && t.Some? && t.value.holder.None? && t.value.nextID == s.nextID + 1
      && t.value.stdin == s.stdin + Wire(encode, m)
      && t.value.stdout == s.stdout && |t.value.readers| == |s.readers| + n + 1
      && t.value.returned == s.returned + [Returned(m, Ok(s.stdout[|s.readers| + n].reply))]
  {
    var m := Request(s.nextID + 1, name, params);
    var start, write := StartCall(c, name, params), WriteSome(c, |Wire(encode, m)|);
    var started := Apply(encode, s, start);
    var written := Apply(encode, started, write);
    ReadUpToAnswer(encode, written, c, m, n);
    TwoSteps(encode, s, start, write, Reads(c, n));
  }

  /** Writing `n` bytes and failing. */
  function WritesAndFails(c: Caller, name: string, params: string, n: nat): seq<Step> {
    if n == 0 then [StartCall(c, name, params), WriteFails(c)] + []
    else [StartCall(c, name, params), WriteSome(c, n)] + [WriteFails(c)]
  }

  /** The same for a write that fails after `n` bytes: an opening of the line, and no line read. */
  lemma UninterruptedWriteFailure(encode: Message -> string, s: State, c: Caller, name: string, params: string, n: nat)
    requires s.holder.None? && PlaceOf(s, c).Outside?
    requires n < |Wire(encode, Request(s.nextID + 1, name, params))|
    ensures var m := Request(s.nextID + 1, name, params);
      var t := RunFrom(encode, s, WritesAndFails(c, name, params, n));
      && t.Some? && t.value.holder.None? && t.value.nextID == s.nextID + 1
      && t.value.stdin == s.stdin + Wire(encode, m)[..n]
      && t.value.stdout == s.stdout && t.value.readers == s.readers
      && t.value.returned == s.returned + [Returned(m, Err(WriteFailed))]
  {
    var start, write := StartCall(c, name, params), WriteSome(c, n);
    var started := Apply(encode, s, start);
    if n == 0 {
      TwoSteps(encode, s, start, WriteFails(c), []);
      var t := Apply(encode, started, WriteFails(c));
      assert RunFrom(encode, t, []) == Some(t);
      assert t.stdin == s.stdin + "";
    } else {
      TwoSteps(encode, s, start, write, [WriteFails(c)]);
      OneStep(encode, Apply(encode, started, write), WriteFails(c));
    }
  }

  lemma OneStep(encode: Message -> string, s: State, step: Step)
    requires Enabled(s, step)
    ensures RunFrom(encode, s, [step]) == Some(Apply(encode, s, step))
  {
    assert [step][1..] == [];
  }

  /** Reading on until the pipe fails. */
  function Drain(c: Caller, n: nat): seq<Step> {
    if n == 0 then [ReadFails(c)] else [ReadLine(c)] + Drain(c, n - 1)
  }

  ghost predicate NoAnswer(s: State, id: int) {
    && s.pieces == [] && !s.closed && |s.readers| <= |s.stdout|
    && forall i :: |s.readers| <= i < |s.stdout| ==> !Answers(s.stdout[i], id)
  }

  lemma {:induction false} ReadUntilFailure(encode: Message -> string, s: State, c: Caller, m: Message, n: nat)
    requires m.Request? && PlaceOf(s, c) == Reading(m) && NoAnswer(s, m.id) && n == |s.stdout| - |s.readers|
    ensures var t := RunFrom(encode, s, Drain(c, n));
      && t.Some? && t.value.holder.None? && |t.value.readers| == |t.value.stdout|
      && t.value.returned == s.returned + [Returned(m, Err(ReadFailed))]
      && t.value.stdout == s.stdout && t.value.stdin == s.stdin && t.value.nextID == s.nextID
    decreases n
  {
    if n > 0 {
      ReadUntilFailure(encode, Apply(encode, s, ReadLine(c)), c, m, n - 1);
      assert Drain(c, n)[1..] == Drain(c, n - 1);
    } else {
      OneStep(encode, s, ReadFails(c));
    }
  }

  /** And for a pipe that fails before an answer: every line is read, and none was the answer. */
  lemma UninterruptedReadFailure(encode: Message -> string, s: State, c: Caller, name: string, params: string)
    requires s.holder.None? && PlaceOf(s, c).Outside? && NoAnswer(s, s.nextID + 1)
    ensures var m := Request(s.nextID + 1, name, params);
      var t := RunFrom(encode, s,
        [StartCall(c, name, params), WriteSome(c, |Wire(encode, m)|)] + Drain(c, |s.stdout| - |s.readers|));
      && t.Some? && t.value.holder.None? && t.value.nextID == s.nextID + 1
      && t.value.stdin == s.stdin + Wire(encode, m)
      && t.value.stdout == s.stdout && |t.value.readers| == |s.stdout|
      && t.value.returned == s.returned + [Returned(m, Err(ReadFailed))]
  {
    var m := Request(s.nextID + 1, name, params);
    var start, write := StartCall(c, name, params), WriteSome(c, |Wire(encode, m)|);
    var written := Apply(encode, Apply(encode, s, start), write);
    ReadUntilFailure(encode, written, c, m, |s.stdout| - |s.readers|);
    TwoSteps(encode, s, start, write, Drain(c, |s.stdout| - |s.readers|));
  }

  lemma TwoSteps(encode: Message -> string, s: State, first: Step, second: Step, rest: seq<Step>)
    requires Enabled(s, first) && Enabled(Apply(encode, s, first), second)
    ensures RunFrom(encode, s, [first, second] + rest) ==
            RunFrom(encode, Apply(encode, Apply(encode, s, first), second), rest)
  {
    var steps := [first, second] + rest;
    assert steps[1..] == [second] + rest;
    assert steps[1..][1..] == rest;
  }
}
