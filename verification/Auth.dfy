/** Which commands a tier may run. */
module Auth {
  import opened Config
  import opened Strings

  /** The words of a command; an empty one has a single empty word. */
  function SplitCommand(s: string): (r: seq<string>)
    ensures r != []
  {
    var parts := Fields(s);
    if parts == [] then [""] else parts
  }

  function JoinCommand(cmd: string, args: seq<string>): string {
    if args == [] then cmd else cmd + (" " + Join(args, " "))
  }

  /** The entries of a tier and of the tiers below it. */
  function Granted(tier: string, cfg: AuthConfig): seq<string> {
    if tier == TIER_ANONYMOUS then cfg.anonymous
    else if tier == TIER_IDENTIFIED then cfg.anonymous + cfg.identified
    else if tier == TIER_TRUSTED then cfg.anonymous + cfg.identified + cfg.trusted
    else []
  }

  /** A wildcard's stem opens the verb; any other entry's words open the command's words. */
  predicate EntryMatches(entry: string, words: seq<string>)
    requires words != []
  {
    var e := TrimSpace(entry);
    && e != ""
    && if HasSuffix(e, "*") then HasPrefix(words[0], e[..|e| - 1]) else Fields(e) <= words
  }

  /** Some entry matches the words of the command. */
  predicate Covers(entries: seq<string>, words: seq<string>)
    requires words != []
  {
    entries != [] && (EntryMatches(entries[0], words) || Covers(entries[1..], words))
  }

  lemma OneMatchCovers(entries: seq<string>, words: seq<string>, i: nat, e: string)
    requires words != [] && i < |entries| && e == entries[i] && EntryMatches(e, words)
    ensures Covers(entries, words)
  {
    FirstCovers(entries[i..], words, e);
    CoversFrom(entries, words, i);
  }

  lemma {:induction false} CoversFrom(entries: seq<string>, words: seq<string>, i: nat)
    requires words != [] && i <= |entries| && Covers(entries[i..], words)
    ensures Covers(entries, words)
  {
    if i == 0 {
      assert entries[i..] == entries;
    } else {
      assert entries[i - 1..][1..] == entries[i..];
      LaterCovers(entries[i - 1..], words);
      CoversFrom(entries, words, i - 1);
    }
  }

  lemma FirstCovers(entries: seq<string>, words: seq<string>, e: string)
    requires words != [] && entries != [] && entries[0] == e && EntryMatches(e, words)
    ensures Covers(entries, words)
  {
  }

  lemma LaterCovers(entries: seq<string>, words: seq<string>)
    requires words != [] && entries != [] && Covers(entries[1..], words)
    ensures Covers(entries, words)
  {
  }

  lemma {:induction false} SomeEntryMatches(entries: seq<string>, words: seq<string>) returns (e: string)
    requires words != [] && Covers(entries, words)
    ensures e in entries && EntryMatches(e, words)
  {
    e := entries[0];
    if !EntryMatches(e, words) {
      e := SomeEntryMatches(entries[1..], words);
    }
  }

  /** A tier may run a command exactly when one of its entries, or of a lower tier's, matches it. */
  lemma AllowedIffAnEntryMatches(tier: string, command: string, cfg: AuthConfig)
    ensures Allowed(tier, command, cfg) <==>
            exists e :: e in Granted(tier, cfg) && EntryMatches(e, SplitCommand(command))
  {
    var granted, words := Granted(tier, cfg), SplitCommand(command);
    if Allowed(tier, command, cfg) {
      var _ := SomeEntryMatches(granted, words);
    }
    if e :| e in granted && EntryMatches(e, words) {
      var i :| 0 <= i < |granted| && granted[i] == e;
      OneMatchCovers(granted, words, i, e);
    }
  }

  predicate Allowed(tier: string, command: string, cfg: AuthConfig) {
    Covers(Granted(tier, cfg), SplitCommand(command))
  }

  /** `IsCommandAllowed` scans the inherited entries and stops at the first that matches. */
  method IsCommandAllowed(tier: string, command: string, cfg: AuthConfig) returns (ok: bool)
    ensures ok <==> Allowed(tier, command, cfg)
  {
    var allowed: seq<string> := [];
    Inherited(cfg);
    if tier == TIER_ANONYMOUS {
      allowed := allowed + cfg.anonymous;
    } else if tier == TIER_IDENTIFIED {
      allowed := allowed + cfg.anonymous;
      allowed := allowed + cfg.identified;
    } else if tier == TIER_TRUSTED {
      allowed := allowed + cfg.anonymous;
      allowed := allowed + cfg.identified;
      allowed := allowed + cfg.trusted;
    } else {
      assert Granted(tier, cfg) == [];
      return false;
    }
    assert allowed == Granted(tier, cfg);
    ok := Scan(allowed, SplitCommand(command));
  }

  method Scan(allowed: seq<string>, cmdParts: seq<string>) returns (ok: bool)
    requires cmdParts != []
    ensures ok <==> Covers(allowed, cmdParts)
  {
    for n := 0 to |allowed|
      invariant Covers(allowed, cmdParts) == Covers(allowed[n..], cmdParts)
    {
      assert allowed[n..][1..] == allowed[n + 1..];
      var matches := MatchEntry(allowed[n], cmdParts);
      if matches {
        return true;
      }
    }
    return false;
  }

  /** The body of the scan: one entry against the words of the command. */
  method MatchEntry(listed: string, cmdParts: seq<string>) returns (ok: bool)
    requires cmdParts != []
    ensures ok <==> EntryMatches(listed, cmdParts)
  {
    var entry := TrimSpace(listed);
    if entry == "" {
      return false;
    }
    if HasSuffix(entry, "*") {
      return HasPrefix(cmdParts[0], entry[..|entry| - 1]);
    }
    TrimmedHasFields(listed);
    ok := MatchWords(SplitCommand(entry), cmdParts);
  }

  method MatchWords(entryParts: seq<string>, cmdParts: seq<string>) returns (ok: bool)
    requires entryParts != [] && cmdParts != []
    ensures ok <==> entryParts <= cmdParts
  {
    var verb := cmdParts[0];
    if |entryParts| == 1 && entryParts[0] == verb {
      return true;
    }
    if |entryParts| > |cmdParts| {
      return false;
    }
    ok := true;
    for i := 0 to |entryParts|
      invariant ok && entryParts[..i] == cmdParts[..i]
    {
      if entryParts[i] != cmdParts[i] {
        ok := false;
        break;
      }
    }
  }

  lemma TrimmedHasFields(s: string)
    requires TrimSpace(s) != ""
    ensures Fields(TrimSpace(s)) != []
  {
    TrimSpaceIsTrimmed(s);
    assert TrimLeft(TrimSpace(s), IsSpace) == TrimSpace(s);
  }

  lemma OneField(entry: string)
    requires IsToken(entry)
    ensures TrimSpace(entry) == entry && Fields(entry) == [entry]
  {
    TrimSpaceId(entry);
    FieldsOfOne(entry);
  }

  /** An entry that is a verb matches every command with that verb. */
  lemma VerbEntryMatches(entry: string, words: seq<string>)
    requires words != [] && words[0] == entry && IsToken(entry) && !HasSuffix(entry, "*")
    ensures EntryMatches(entry, words)
  {
    OneField(entry);
    assert [entry] <= words;
  }

  // ----- Entries of several words

  /** The words with spaces between them, as an operator may write an entry. */
  function Spaced(words: seq<string>, gaps: seq<string>): string
    requires |gaps| == |words|
  {
    if words == [] then ""
    else if |words| == 1 then words[0]
    else words[0] + (gaps[0] + Spaced(words[1..], gaps[1..]))
  }

  ghost predicate AllGaps(gaps: seq<string>) {
    forall i :: 0 <= i < |gaps| ==> gaps[i] != "" && AllSpace(gaps[i])
  }

  lemma {:induction false} FieldsSkipSpace(gap: string, rest: string)
    requires AllSpace(gap)
    ensures Fields(gap + rest) == Fields(rest)
  {
    if gap == "" {
      assert gap + rest == rest;
    } else {
      assert (gap + rest)[1..] == gap[1..] + rest && (gap + rest)[0] == gap[0];
      FieldsSpace(gap + rest);
      FieldsSkipSpace(gap[1..], rest);
    }
  }

  lemma HeadAndTail(words: seq<string>)
    requires words != []
    ensures [words[0]] + words[1..] == words
  {
  }

  lemma SpacedNext(words: seq<string>, gaps: seq<string>)
    requires |words| > 1 && |gaps| == |words|
    ensures Spaced(words, gaps) == words[0] + (gaps[0] + Spaced(words[1..], gaps[1..]))
  {
  }

  lemma {:induction false} FieldsOfSpaced(words: seq<string>, gaps: seq<string>)
    requires words != [] && |gaps| == |words| && AllTokens(words) && AllGaps(gaps)
    ensures Fields(Spaced(words, gaps)) == words
  {
    if |words| == 1 {
      FieldsOfOne(words[0]);
      assert words == [words[0]];
    } else {
      FieldsOfSpaced(words[1..], gaps[1..]);
      FieldsOneMore(words[0], gaps[0], Spaced(words[1..], gaps[1..]));
      HeadAndTail(words);
      SpacedNext(words, gaps);
    }
  }

  lemma FieldsOneMore(first: string, gap: string, rest: string)
    requires IsToken(first) && gap != "" && AllSpace(gap)
    ensures Fields(first + (gap + rest)) == [first] + Fields(rest)
  {
    FieldsSkipSpace(gap, rest);
    assert (gap + rest)[0] == gap[0];
    FieldsToken(first, gap + rest);
  }

  lemma {:induction false} EndsOfSpaced(words: seq<string>, gaps: seq<string>)
    requires words != [] && |gaps| == |words| && AllTokens(words)
    ensures var s, last := Spaced(words, gaps), words[|words| - 1];
      s != "" && s[0] == words[0][0] && s[|s| - 1] == last[|last| - 1]
  {
    if |words| > 1 {
      EndsOfSpaced(words[1..], gaps[1..]);
    }
  }

  /**
    An entry of words whose last does not end in a star, however it is spaced, matches a
    command if and only if its words are the command's first words.
   */
  lemma EntryOfWords(left: string, ws: seq<string>, gaps: seq<string>, right: string, words: seq<string>)
    requires ws != [] && |gaps| == |ws| && AllTokens(ws) && AllGaps(gaps) && AllSpace(left) && AllSpace(right)
    requires var last := ws[|ws| - 1]; last[|last| - 1] != '*'
    requires words != []
    ensures EntryMatches(left + (Spaced(ws, gaps) + right), words) <==> ws <= words
  {
    var e := Spaced(ws, gaps);
    EndsOfSpaced(ws, gaps);
    FieldsOfSpaced(ws, gaps);
    assert IsToken(ws[0]) && IsToken(ws[|ws| - 1]);
    TrimSpacePad(left, e, right);
    NoStar(e);
    PlainEntry(left + (e + right), e, ws, words);
  }

  lemma PlainEntry(entry: string, e: string, ws: seq<string>, words: seq<string>)
    requires TrimSpace(entry) == e != "" && !HasSuffix(e, "*") && Fields(e) == ws != [] && words != []
    ensures EntryMatches(entry, words) <==> ws <= words
  {
  }

  lemma NoStar(e: string)
    requires e != "" && e[|e| - 1] != '*'
    ensures !HasSuffix(e, "*")
  {
    assert e[|e| - 1..][0] == e[|e| - 1];
  }

  /** Alone, it permits exactly the commands that begin with its words. */
  lemma OnlyEntryOfWords(entry: string, ws: seq<string>, words: seq<string>)
    requires words != [] && (EntryMatches(entry, words) <==> ws <= words)
    ensures Covers([entry], words) <==> ws <= words
  {
    if EntryMatches(entry, words) {
      FirstCovers([entry], words, entry);
    } else {
      NoneCovers([entry], words, entry);
    }
  }

  lemma NoneCovers(entries: seq<string>, words: seq<string>, entry: string)
    requires words != [] && entries == [entry] && !EntryMatches(entry, words)
    ensures !Covers(entries, words)
  {
    assert entries[1..] == [];
  }

  /** The names of the tiers, and what each inherits, spelled out. */
  lemma GrantedByValue(cfg: AuthConfig)
    ensures Granted("anonymous", cfg) == cfg.anonymous
    ensures Granted("identified", cfg) == cfg.anonymous + cfg.identified
    ensures Granted("trusted", cfg) == cfg.anonymous + cfg.identified + cfg.trusted
  {
    Inherited(cfg);
  }

  lemma MoreCoverMore(entries: seq<string>, more: seq<string>, words: seq<string>)
    requires words != [] && Covers(entries, words)
    ensures Covers(entries + more, words)
  {
    var e := SomeEntryMatches(entries, words);
    var i :| 0 <= i < |entries| && entries[i] == e;
    assert (entries + more)[i] == e;
    OneMatchCovers(entries + more, words, i, e);
  }

  lemma Inherited(cfg: AuthConfig)
    ensures Granted(TIER_ANONYMOUS, cfg) == cfg.anonymous
    ensures Granted(TIER_IDENTIFIED, cfg) == cfg.anonymous + cfg.identified
    ensures Granted(TIER_TRUSTED, cfg) == cfg.anonymous + cfg.identified + cfg.trusted
  {
    TiersDiffer();
  }

  /** A command permitted to a tier is permitted to every tier above it. */
  lemma TiersInherit(command: string, cfg: AuthConfig)
    ensures Allowed(TIER_ANONYMOUS, command, cfg) ==> Allowed(TIER_IDENTIFIED, command, cfg)
    ensures Allowed(TIER_IDENTIFIED, command, cfg) ==> Allowed(TIER_TRUSTED, command, cfg)
  {
    Inherited(cfg);
    var words := SplitCommand(command);
    if Covers(cfg.anonymous, words) {
      MoreCoverMore(cfg.anonymous, cfg.identified, words);
    }
    if Covers(cfg.anonymous + cfg.identified, words) {
      MoreCoverMore(cfg.anonymous + cfg.identified, cfg.trusted, words);
    }
  }

  /** The words the handler joins are the words the permission check sees. */
  lemma RejoinedWords(words: seq<string>)
    requires words != [] && AllTokens(words)
    ensures SplitCommand(JoinCommand(words[0], words[1..])) == words
  {
    FieldsOfJoin(words);
    assert JoinCommand(words[0], words[1..]) == Join(words, " ");
  }

  /** A wildcard with a space in its stem permits nothing that comes from a command line. */
  lemma SpacedWildcardIsDead(entry: string, words: seq<string>)
    requires words != [] && AllTokens(words)
    requires var e := TrimSpace(entry); HasSuffix(e, "*") && exists i :: 0 <= i < |e| && IsSpace(e[i])
    ensures !EntryMatches(entry, words)
  {
    var e := TrimSpace(entry);
    var i :| 0 <= i < |e| && IsSpace(e[i]);
    assert e[|e| - 1] == e[|e| - 1..][0] == '*';
    var stem := e[..|e| - 1];
    assert IsToken(words[0]) && stem[i] == e[i];
  }

  /** The first word of a line decides which unspaced prefixes the line has. */
  lemma PrefixOfFirstWord(words: seq<string>, stem: string)
    requires words != [] && AllTokens(words) && forall i :: 0 <= i < |stem| ==> !IsSpace(stem[i])
    ensures HasPrefix(Join(words, " "), stem) <==> HasPrefix(words[0], stem)
  {
    var first, line := words[0], Join(words, " ");
    if |words| > 1 {
      assert line == first + (" " + Join(words[1..], " "));
      assert line[|first|] == ' ' && line[..|first|] == first;
      assert |first| < |stem| ==> stem[|first|] != line[|first|];
    }
  }

  /**
    The comment on `IsCommandAllowed` has a wildcard match whatever starts with its stem.
    That is so exactly when the stem has no space in it or is not how the line starts.
   */
  lemma WildcardAsDocumented(entry: string, words: seq<string>)
    requires words != [] && AllTokens(words) && HasSuffix(TrimSpace(entry), "*")
    ensures var stem := TrimSpace(entry)[..|TrimSpace(entry)| - 1];
      var starts := HasPrefix(Join(words, " "), stem);
      (EntryMatches(entry, words) <==> starts) <==> (starts ==> forall i :: 0 <= i < |stem| ==> !IsSpace(stem[i]))
  {
    var e := TrimSpace(entry);
    var stem := e[..|e| - 1];
    if i :| 0 <= i < |stem| && IsSpace(stem[i]) {
      assert IsSpace(e[i]);
      SpacedWildcardIsDead(entry, words);
    } else {
      PrefixOfFirstWord(words, stem);
    }
  }

  function Rank(tier: string): nat {
    if tier == TIER_ANONYMOUS then 0 else if tier == TIER_IDENTIFIED then 1 else 2
  }

  /** `tierForCommand` in the command handler. */
  function TierForCommand(command: string, cfg: AuthConfig): string {
    if Allowed(TIER_ANONYMOUS, command, cfg) then TIER_ANONYMOUS
    else if Allowed(TIER_IDENTIFIED, command, cfg) then TIER_IDENTIFIED
    else TIER_TRUSTED
  }

  /** No tier below the answer permits the command; an answer below trusted permits it. */
  lemma TierForCommandIsLeast(command: string, cfg: AuthConfig, tier: string)
    ensures Allowed(tier, command, cfg) ==> Rank(TierForCommand(command, cfg)) <= Rank(tier)
    ensures TierForCommand(command, cfg) != TIER_TRUSTED ==> Allowed(TierForCommand(command, cfg), command, cfg)
  {
    TiersDiffer();
    TiersInherit(command, cfg);
    if Allowed(tier, command, cfg) {
      UnknownTiersGetNothing(command, cfg, tier);
    }
  }

  lemma UnknownTiersGetNothing(command: string, cfg: AuthConfig, tier: string)
    requires Allowed(tier, command, cfg)
    ensures tier == TIER_ANONYMOUS || tier == TIER_IDENTIFIED || tier == TIER_TRUSTED
  {
  }
}
