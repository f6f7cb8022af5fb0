/** Tool calls on their way from the client's argument map to the server's. */
module McpArgs {
  import opened Auth
  import opened Config
  import opened Handler
  import opened Strings
  import opened Wrappers

  function Pair(key: string, value: string): string {
    key + ("=" + value)
  }

  function Pairs(args: map<string, string>, order: seq<string>): seq<string>
    requires forall k :: k in order ==> k in args
  {
    seq(|order|, i requires 0 <= i < |order| => assert order[i] in order; Pair(order[i], args[order[i]]))
  }

  /** `order` lists the keys of `args`, each once: one of the orders Go may iterate in. */
  ghost predicate IsOrder(order: seq<string>, args: map<string, string>) {
    && (forall k :: k in order <==> k in args)
    && (forall i, j :: 0 <= i < j < |order| ==> order[i] != order[j])
  }

  /** The command line for the keys taken so far. */
  function Line(tool: string, args: map<string, string>, order: seq<string>): string
    requires forall k :: k in order ==> k in args
  {
    Join(["mcp", tool] + Pairs(args, order), " ")
  }

  lemma {:induction false} JoinSnoc(parts: seq<string>, last: string)
    requires parts != []
    ensures Join(parts + [last], " ") == Join(parts, " ") + (" " + last)
  {
    if |parts| == 1 {
      assert (parts + [last])[1..] == [last];
    } else {
      assert (parts + [last])[1..] == parts[1..] + [last];
      JoinSnoc(parts[1..], last);
    }
  }

  lemma EmptyLine(tool: string, args: map<string, string>)
    ensures Line(tool, args, []) == "mcp " + tool
  {
    assert ["mcp", tool] + Pairs(args, []) == ["mcp"] + [tool];
    JoinSnoc(["mcp"], tool);
    assert "mcp" + (" " + tool) == "mcp " + tool;
  }

  lemma LongerLine(tool: string, args: map<string, string>, order: seq<string>, k: string)
    requires k in args && forall x :: x in order ==> x in args
    ensures forall x :: x in order + [k] ==> x in args
    ensures Line(tool, args, order + [k]) == Line(tool, args, order) + (" " + (k + ("=" + args[k])))
  {
    JoinSnoc(["mcp", tool] + Pairs(args, order), Pair(k, args[k]));
    assert Pairs(args, order + [k]) == Pairs(args, order) + [Pair(k, args[k])];
    assert ["mcp", tool] + Pairs(args, order + [k]) == ["mcp", tool] + Pairs(args, order) + [Pair(k, args[k])];
  }

  /** `invokeMCP`: the map is gone through in an order the client does not choose. */
  method InvokeMcp(tool: string, args: map<string, string>) returns (cmd: string)
    ensures exists order :: IsOrder(order, args) && cmd == Line(tool, args, order)
  {
    cmd := "mcp " + tool;
    ghost var order := [];
    var left := args.Keys;
    EmptyLine(tool, args);
    while left != {}
      invariant left <= args.Keys && forall k :: k in order <==> k in args.Keys - left
      invariant forall i, j :: 0 <= i < j < |order| ==> order[i] != order[j]
      invariant cmd == Line(tool, args, order)
      decreases |left|
    {
      var k :| k in left;
      assert k !in order;
      cmd := cmd + (" " + (k + ("=" + args[k])));
      left := left - {k};
      LongerLine(tool, args, order, k);
      order := order + [k];
    }
  }

  lemma PairIsToken(k: string, v: string)
    requires IsToken(k) && NoSpace(v)
    ensures IsToken(Pair(k, v))
  {
  }

  lemma PairsAreTokens(args: map<string, string>, order: seq<string>)
    requires forall k :: k in order ==> k in args && IsToken(k) && NoSpace(args[k])
    ensures AllTokens(Pairs(args, order))
  {
    forall i | 0 <= i < |order|
      ensures IsToken(Pairs(args, order)[i])
    {
      assert order[i] in order;
      PairIsToken(order[i], args[order[i]]);
    }
  }

  /** What the server makes of an `mcp` line: the tool and its arguments. */
  function Received(line: string): Option<(string, map<string, string>)> {
    var words := Fields(line);
    if |words| < 2 || words[0] != "mcp" then None
    else
      var arguments := ParseArguments(words[2..]);
      if arguments.Err? then None else Some((words[1], arguments.value))
  }

  ghost predicate Sendable(tool: string, args: map<string, string>) {
    && IsToken(tool)
    && forall k :: k in args ==> IsToken(k) && '=' !in k && NoSpace(args[k])
  }

  function Chosen(args: map<string, string>, order: seq<string>): map<string, string>
    requires forall k :: k in order ==> k in args
  {
    map k | k in order :: args[k]
  }

  lemma {:induction false} PairsParse(args: map<string, string>, order: seq<string>)
    requires forall k :: k in order ==> k in args && k != "" && '=' !in k
    ensures ParseArguments(Pairs(args, order)) == Ok(Chosen(args, order))
    decreases |order|
  {
    if order != [] {
      var n := |order| - 1;
      assert order == order[..n] + [order[n]];
      assert forall k :: k in order[..n] ==> k in order;
      PairsParse(args, order[..n]);
      OneMorePair(Pairs(args, order[..n]), order[n], args[order[n]]);
      ChosenSnoc(args, order[..n], order[n]);
      assert Pairs(args, order) == Pairs(args, order[..n]) + [Pair(order[n], args[order[n]])];
    }
  }

  lemma ChosenSnoc(args: map<string, string>, order: seq<string>, k: string)
    requires forall x :: x in order + [k] ==> x in args
    requires forall x :: x in order ==> x in args
    ensures Chosen(args, order + [k]) == Chosen(args, order)[k := args[k]]
  {
    assert forall x :: x in order + [k] <==> x in order || x == k;
  }

  lemma OneMorePair(words: seq<string>, k: string, v: string)
    requires k != "" && '=' !in k && ParseArguments(words).Ok?
    ensures ParseArguments(words + [Pair(k, v)]) == Ok(ParseArguments(words).value[k := v])
  {
    assert (words + [Pair(k, v)])[..|words|] == words;
    IndexOfFirst(k, '=', v);
    assert Pair(k, v)[..|k|] == k && Pair(k, v)[|k| + 1..] == v;
  }

  /** Parsed arguments come from words without spaces. */
  lemma {:induction false} ParsedIsSendable(words: seq<string>)
    requires AllTokens(words) && ParseArguments(words).Ok?
    ensures forall k :: k in ParseArguments(words).value ==>
              IsToken(k) && '=' !in k && NoSpace(ParseArguments(words).value[k])
  {
    if words != [] {
      var n := |words| - 1;
      ParsedIsSendable(words[..n]);
      var eq := IndexOf(words[n], '=');
      assert IsToken(words[n]);
      assert IsToken(words[n][..eq]) && NoSpace(words[n][eq + 1..]) && '=' !in words[n][..eq];
    }
  }

  /**
    Tool and arguments arrive unchanged, whatever the iteration order, if and only if
    nothing in them contains a space, no key contains `=`, and tool and keys are not empty.
   */
  lemma ArgumentsSurvive(tool: string, args: map<string, string>, order: seq<string>)
    requires IsOrder(order, args)
    ensures Received(Line(tool, args, order)) == Some((tool, args)) <==> Sendable(tool, args)
  {
    var line := Line(tool, args, order);
    if Sendable(tool, args) {
      SentIsReceived(tool, args, order);
    } else if Received(line) == Some((tool, args)) {
      FieldsAreTokens(line);
      assert AllTokens(Fields(line)[2..]);
      ParsedIsSendable(Fields(line)[2..]);
    }
  }

  lemma SentIsReceived(tool: string, args: map<string, string>, order: seq<string>)
    requires IsOrder(order, args) && Sendable(tool, args)
    ensures Received(Line(tool, args, order)) == Some((tool, args))
  {
    var pairs := Pairs(args, order);
    PairsAreTokens(args, order);
    LineFields(tool, args, order);
    PairsParse(args, order);
    ReceivedWords(Line(tool, args, order), tool, pairs);
    ChosenAll(args, order);
  }

  lemma ChosenAll(args: map<string, string>, order: seq<string>)
    requires IsOrder(order, args)
    ensures Chosen(args, order) == args
  {
  }

  lemma ReceivedWords(line: string, tool: string, pairs: seq<string>)
    requires Fields(line) == ["mcp", tool] + pairs && ParseArguments(pairs).Ok?
    ensures Received(line) == Some((tool, ParseArguments(pairs).value))
  {
    assert (["mcp", tool] + pairs)[2..] == pairs;
  }

  lemma LineFields(tool: string, args: map<string, string>, order: seq<string>)
    requires forall k :: k in order ==> k in args
    requires IsToken(tool) && AllTokens(Pairs(args, order))
    ensures Fields(Line(tool, args, order)) == ["mcp", tool] + Pairs(args, order)
  {
    assert IsToken("mcp");
    AllTokensCons(tool, Pairs(args, order));
    AllTokensCons("mcp", [tool] + Pairs(args, order));
    assert ["mcp", tool] + Pairs(args, order) == ["mcp"] + ([tool] + Pairs(args, order));
    FieldsOfJoin(["mcp", tool] + Pairs(args, order));
  }

  lemma McpAction(h: Handler, cmd: string, args: seq<string>, sess: Session, arguments: map<string, string>)
    requires VerbOf(cmd) == Mcp && args != [] && ParseArguments(args[1..]) == Ok(arguments)
    ensures ExecuteBinary(h, cmd, args, sess) == CallTool(args[0], arguments) <==> h.hasMcp && MayRun(h, cmd, args, sess)
  {
  }

  lemma WordsAfterVerb(verb: string, tool: string, pairs: seq<string>)
    ensures var words := [verb, tool] + pairs;
      words[0] == verb && words[1..] == [tool] + pairs && words[1..][0] == tool && words[1..][1..] == pairs
  {
  }

  lemma McpVerb(verb: string)
    requires verb == "mcp"
    ensures VerbOf(verb) == Mcp && verb != "capabilities"
  {
  }

  lemma ParsedLineCalls(h: Handler, sess: Session, line: string, verb: string, tool: string, pairs: seq<string>,
                        args: map<string, string>)
    requires verb == "mcp" && Fields(line) == [verb, tool] + pairs && ParseArguments(pairs) == Ok(args)
    ensures var words := Fields(line);
      ExecuteBinary(h, words[0], words[1..], sess) == CallTool(tool, args) <==> h.hasMcp && Covered(h, words, sess)
  {
    var words := Fields(line);
    McpVerb(verb);
    WordsAfterVerb(verb, tool, pairs);
    MayRunIffCovered(h, line, sess);
    McpAction(h, words[0], words[1..], sess, args);
  }

  /**
    From the client's map to the tool server: the line sent calls that tool with that map
    if and only if a server is configured and an inherited entry covers the line's words.
   */
  lemma ToolCallArrives(h: Handler, sess: Session, tool: string, args: map<string, string>, order: seq<string>)
    requires IsOrder(order, args) && Sendable(tool, args)
    ensures var words := Fields(Line(tool, args, order));
      && words == ["mcp", tool] + Pairs(args, order)
      && (ExecuteBinary(h, words[0], words[1..], sess) == CallTool(tool, args) <==> h.hasMcp && Covered(h, words, sess))
  {
    var line, pairs := Line(tool, args, order), Pairs(args, order);
    PairsAreTokens(args, order);
    LineFields(tool, args, order);
    PairsParse(args, order);
    ChosenAll(args, order);
    ParsedLineCalls(h, sess, line, "mcp", tool, pairs, args);
  }

  // ----- The lists of tools in the mcp block

  /** Whatever the block's lists say, the same is done for every command. */
  lemma ToolListsDecideNothing(h: Handler, mcp: Option<MCPConfig>, cmd: string, args: seq<string>, sess: Session)
    ensures var other := h.(site := h.site.(mcp := mcp));
      ExecuteBinary(other, cmd, args, sess) == ExecuteBinary(h, cmd, args, sess)
  {
    var other := h.(site := h.site.(mcp := mcp));
    DispatchWithout(h, mcp, VerbOf(cmd), args, sess);
  }

  lemma DispatchWithout(h: Handler, mcp: Option<MCPConfig>, verb: Verb, args: seq<string>, sess: Session)
    ensures var other := h.(site := h.site.(mcp := mcp));
      && Dispatch(other, verb, args, sess) == Dispatch(h, verb, args, sess)
      && PackBytes(other, args, sess) == PackBytes(h, args, sess)
  {
    RoutesWithout(h, mcp, args);
  }

  lemma RoutesWithout(h: Handler, mcp: Option<MCPConfig>, args: seq<string>)
    ensures var other := h.(site := h.site.(mcp := mcp));
      |args| >= 2 ==> RouteAllowed(other, "api-call", h.upper(args[0]), args[1]) ==
                      RouteAllowed(h, "api-call", h.upper(args[0]), args[1])
  {
    if |args| >= 2 {
      SameCommands(h, h.(site := h.site.(mcp := mcp)), h.site.commands, "api-call", h.upper(args[0]), args[1]);
    }
  }

  lemma {:induction false} SameCommands(h: Handler, other: Handler, commands: seq<CommandConfig>, kind: string,
                                        method_: string, path: string)
    requires other.equalFold == h.equalFold
    ensures SomeDeclares(other, commands, kind, method_, path) == SomeDeclares(h, commands, kind, method_, path)
  {
    if commands != [] {
      SameCommands(h, other, commands[1..], kind, method_, path);
    }
  }

  /** The least tier that lists the tool: `mcpToolTier`. */
  function ToolTier(tool: string, lists: AuthConfig): string {
    if tool in lists.anonymous then TIER_ANONYMOUS
    else if tool in lists.identified then TIER_IDENTIFIED
    else if tool in lists.trusted then TIER_TRUSTED
    else TIER_ANONYMOUS
  }

  /** So a tool is called for a session below its tier exactly when an entry covers the line, as for any other tool. */
  lemma CalledBelowItsTierIff(h: Handler, sess: Session, tool: string, args: map<string, string>, order: seq<string>)
    requires IsOrder(order, args) && Sendable(tool, args) && h.site.mcp.Some?
    requires Rank(sess.tier) < Rank(ToolTier(tool, h.site.mcp.value.auth))
    ensures var words := Fields(Line(tool, args, order));
      ExecuteBinary(h, words[0], words[1..], sess) == CallTool(tool, args) <==> h.hasMcp && Covered(h, words, sess)
  {
    ToolCallArrives(h, sess, tool, args, order);
  }

  /** For one: a tool listed for trusted sessions only, where everybody is granted `mcp`. */
  lemma TrustedToolForAnonymous(h: Handler, sess: Session, tool: string)
    requires h.hasMcp && IsToken(tool) && sess.tier == TIER_ANONYMOUS
    requires h.site.mcp.Some? && h.site.mcp.value.auth == AuthConfig([], [], [tool])
    requires h.site.auth == AuthConfig(["mcp"], [], [])
    ensures ToolTier(tool, h.site.mcp.value.auth) == TIER_TRUSTED
    ensures var words := Fields(Line(tool, map[], []));
      ExecuteBinary(h, words[0], words[1..], sess) == CallTool(tool, map[])
  {
    ToolCallArrives(h, sess, tool, map[], []);
    McpIsCovered(h, Fields(Line(tool, map[], [])), "mcp", sess);
  }

  lemma McpIsCovered(h: Handler, words: seq<string>, verb: string, sess: Session)
    requires verb == "mcp" && words != [] && words[0] == verb && sess.tier == TIER_ANONYMOUS
    requires h.site.auth == AuthConfig([verb], [], [])
    ensures Covered(h, words, sess)
  {
    assert IsToken(verb) && verb[|verb| - 1..][0] == 'p';
    VerbEntryMatches(verb, words);
    FirstCovers([verb], words, verb);
    Inherited(h.site.auth);
  }
}
