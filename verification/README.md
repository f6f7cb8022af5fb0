# A verified model of sshttpd

sshttpd serves web sites over SSH: it reads a configuration, admits callers by key tier and
rate limit, authorizes each command line against the site's lists, and then serves a Git
packfile, forwards a declared route to a backend, fetches an allowlisted URL through a cache,
or calls a tool on a JSON-RPC server behind one pipe. This project models those parts in
Dafny and proves what they promise over all inputs, all runs and all interleavings.

`dafny verify dfyconfig.toml` checks everything.

## How it is laid out

| module | what it holds |
|---|---|
| `RateLimit` | the token bucket, its window statement, its optimality, the limiter object |
| `Packfile` | the PACK v2 writer, a decoder written from Git's gitformat-pack document, trees, incremental updates |
| `ConfigSyntax`, `ConfigParser` | what the configuration parser computes, as functions of the remaining text; and the cursor object with its methods and loops, each proved to compute that |
| `ConfigMeta`, `ConfigPrinter` | a printer, first for the values of a meta block, and the proof that the parser undoes it |
| `ConfigDirectives` | any directives in any order: what the parser makes of them, with every keyword and default spelt out |
| `ConfigGaps` | inserting blank lines and comments in any accepted text changes nothing |
| `McpProxy`, `McpArgs` | the shared JSON-RPC pipe; tool arguments from the client's map to the server's |
| `Redirects`, `Sizes`, `ProxyCache`, `CacheRuns`, `CacheCalls`, `Http` | which URLs are contacted, byte limits, one cache call, all interleavings of cache calls and servings, how the two fit, the bytes served and how a reader takes them apart |
| `Auth`, `Routes`, `Handler`, `Server` | permission, route matching, dispatch, SSH requests |
| `Config`, `Strings`, `Strconv`, `Bytes`, `Io`, `Wrappers` | the configuration, the Go library functions used, 64-bit numbers, writers that may fail |

An object the program updates in place is a class, a loop is a loop, and each method is tied
by its postcondition to a function of the state before it; the theorems are lemmas about
those functions. What the program gets from outside is a parameter or a nondeterministic
choice: clocks, the compressor and the hash, JSON marshalling, upstream servers, Go's map
iteration order (any order), writers and pipes that stop accepting at any byte, and how the
steps of concurrent callers interleave.

## What was found

Where a promise does not hold of the code on all inputs, the exact condition is proved.

* A wildcard entry whose stem contains a space permits nothing, although the comment on
  `IsCommandAllowed` (internal/auth/auth.go:161) says it matches by prefix:
  `Auth.WildcardAsDocumented`.
* A route that nobody declared can be forwarded, although the comment on `routeAllowed`
  (internal/commands/handler.go:732-735) says that only declared ones are: the binary
  `receive-pack` asks the backend for whatever it cannot pack. That happens exactly for a
  covered `receive-pack` of such a path, with a backend, that no `receive-pack` command
  declares: `Handler.UndeclaredForwardedIff`, `Handler.UndeclaredResource`. It is also the one
  case in which the text and the binary form differ: `Handler.FormsAgreeIff`.
* The tiers' lists of tools in an mcp block (internal/config/config.go:73-74) decide nothing:
  `McpArgs.ToolListsDecideNothing`. A tool listed for a higher tier is called exactly when any
  other would be: `McpArgs.CalledBelowItsTierIff`, `McpArgs.TrustedToolForAnonymous`.
* Servings of one cached response race: nothing stops one from setting the shared header
  while another ranges over it, and Go leaves what is written then undefined. A run has no
  such race if and only if no set falls inside another serving's range, and in such runs all
  servings agree: `CacheRuns.RaceFreeIff`, `CacheRuns.RaceHappens`,
  `CacheRuns.EveryServingShowsTheSame`, `CacheRuns.RacedMayShowAnything`.
* Hop-by-hop fields of the upstream can be forwarded (internal/proxy/proxy.go:224-235 says
  they must not be). The list has `Trailers` where section 4.4 of RFC 7230 has `Trailer`, and
  `Connection` is deleted unread, so the fields it nominates (section 6.1) stay. None is
  forwarded if and only if the reply's header has no `Trailer` and no field that it nominates
  outside the list; this is the header as Go's client hands it over, which has taken some
  fields off already: `Http.EndToEndIff`, `Http.TrailerIsForwarded`, `Http.NominatedIsForwarded`.
* The fetches of one URL need not be a TTL apart. They are in every run in which no caller
  checks a URL while another is between check and store of it, and any state in which two
  are can go on to fetch it twice at one instant: `CacheRuns.FetchesApartWithoutOverlap`,
  `CacheRuns.OverlapMayFetchTwice`, `CacheRuns.TwoCallersMayBothFetch`.
* `Delta` sends equal objects of one version as often as they occur; a hash is sent at most
  once if and only if no two objects that are not held share it: `Packfile.NoHashSentTwiceIff`.
* `parseSize` does not refuse numbers that do not fit in 64 bits; they wrap around:
  `Sizes.ParseSizeExactly`, `Sizes.ReadsModulo`.
* Under the size limit 2^63 - 1, which a configuration can set, the `limit+1` of the limited
  reader wraps and every body is captured as empty: `Sizes.AcceptedBodyIsWhole`,
  `Sizes.LargestLimitIsReachable`.
* The packfile's count field wraps at 2^32 objects: `Packfile.PackRoundTrip`.
* A catch-all before the end of a pattern makes the query decide the match:
  `Routes.QueryIndependence`.
* When a reply has no status, the daemon's own text for the code is used, and loses its first
  word: `statusTextOnly` (internal/commands/handler.go:724-730) takes off whatever comes before
  a space. A text by itself is kept if and only if it has none: `Http.StatusTextKeptIff`.
* `max-redirects 0` selects the default of ten; the comment at internal/config/config.go:46
  says that it disables redirects. Every upstream gets exactly one request if and only if
  redirects are disabled by name or limited to one: `Redirects.OneRequestIff`.

## Model

| member | source | states |
|---|---|---|
| RateLimit.WindowCharacterisation | internal/ratelimit/ratelimit.go:52-71 | In any run at nondecreasing times on a full bucket, call k is admitted if and only if, for every call j up to k, the calls admitted from j on plus one stay within capacity + rate * elapsed |
| RateLimit.EveryTierIsExact | internal/ratelimit/ratelimit.go:45-72 | The same if-and-only-if for the whole limiter: whatever the interleaving of tiers, a call on a limited tier is decided by the windows over that tier's own calls alone |
| RateLimit.LevelIsLeastSlack | internal/ratelimit/ratelimit.go:60-65 | The level before each decision is the least slack over all windows ending there, and some window attains it |
| RateLimit.LevelInRange | internal/ratelimit/ratelimit.go:60-70 | The stored level stays between 0 and the capacity over every run |
| RateLimit.LimiterWithinEveryWindow | internal/ratelimit/ratelimit.go:52-71 | The limiter's own decisions respect the bound on every window |
| RateLimit.GreedyIsOptimal | internal/ratelimit/ratelimit.go:60-71 | After every prefix the limiter has admitted at least as many calls as any policy that respects the bound on every window |
| RateLimit.RefillComposes | internal/ratelimit/ratelimit.go:60-65 | Capped refill over two adjacent spans equals refill over their union |
| RateLimit.DeletingRejectedCalls | internal/ratelimit/ratelimit.go:60-71 | Leaving any set of rejected calls out of a run changes no other decision, and leads to the same bucket up to elapsed time |
| RateLimit.TiersAreIndependent | internal/ratelimit/ratelimit.go:45-58 | A tier's bucket and decision in an interleaved run are those of the run of its own calls |
| RateLimit.ParseBucket | internal/ratelimit/ratelimit.go:77-115 | Every specification gives either the unlimited bucket or a limited bucket that starts full |
| RateLimit.ParseBucketOfSpec | internal/ratelimit/ratelimit.go:77-115 | A positive decimal count, a slash and a known unit, in any letter case and with spaces around each part, gives exactly count per unit and capacity count |
| RateLimit.UnitsByValue | internal/ratelimit/ratelimit.go:95-108 | The unit names and their lengths in seconds, and that there are no others |
| RateLimit.BucketByValue | internal/ratelimit/ratelimit.go:109-115 | The bucket of count per unit refills count in that many seconds, holds count and starts with count |
| RateLimit.NoSlashNoLimit | internal/ratelimit/ratelimit.go:78-86 | Nothing, blanks, `unlimited` and every other text without a slash name no limit |
| RateLimit.BadPartsNoLimit | internal/ratelimit/ratelimit.go:88-107 | A text with a slash names none if and only if its count is bad or nonpositive or its unit unknown |
| RateLimit.NoLimitIsUnlimited | internal/ratelimit/ratelimit.go:77-115 | The rate is 0 if and only if the text is empty, `unlimited`, without a slash, or has a bad or nonpositive count or an unknown unit; any other gives a full limited bucket |
| RateLimit.NoLimitAdmitsAll | internal/ratelimit/ratelimit.go:52-58 | In every run, every call on a tier with such a text is admitted and leaves the whole limiter as it was |
| RateLimit.UnlimitedAdmitsAll | internal/ratelimit/ratelimit.go:45-58 | The same for every tier that has no bucket or one of rate 0 |
| RateLimit.Bucket.TakeOne | internal/ratelimit/ratelimit.go:60-71 | The in-place refill, cap and consume is the transition the theorems are about |
| RateLimit.Allow | internal/ratelimit/ratelimit.go:45-72 | A nil limiter, a missing bucket or a rate of 0 admits and changes nothing; otherwise only the tier's own bucket changes, by the transition |
| RateLimit.New | internal/ratelimit/ratelimit.go:35-41 | Three separate buckets, one for each tier's specification |
| Packfile.HeaderRoundTrip | internal/packfile/packfile.go:120-145 | Each object header decodes to its type and size for every size, whatever follows |
| Packfile.HeaderMinimal | internal/packfile/packfile.go:120-145 | No byte string that decodes to the same type and size is shorter |
| Packfile.HeadersPrefixFree | internal/packfile/packfile.go:120-145 | No header is a proper prefix of another |
| Packfile.StreamFields | internal/packfile/packfile.go:81-118 | Magic, version 2, the object count modulo 2^32, and a trailer that is the hash of all that precedes it |
| Packfile.PackRoundTrip | internal/packfile/packfile.go:81-157 | Decoding the written stream gives back exactly the added types and data, in order, if and only if there are fewer than 2^32 objects |
| Packfile.TreeRoundTrip | internal/packfile/packfile.go:61-78 | Tree data decodes to its entries if and only if no mode contains a space and no name a NUL |
| Packfile.EncodeObject | internal/packfile/packfile.go:120-157 | The shifting loop produces the header and compressed data that the round trip is about |
| Packfile.Writer.AddBlob | internal/packfile/packfile.go:48-58 | Appends one blob under its Git object id and returns that id |
| Packfile.Writer.AddTree | internal/packfile/packfile.go:61-78 | Appends one tree whose data is the entries in order, under its Git object id |
| Packfile.ObjectIdIsOfLoose | internal/packfile/packfile.go:48-78 | An object's id is the hash of a loose object, from which a reader takes back exactly the kind and the data |
| Packfile.HexBack | internal/packfile/packfile.go:167-175 | Reading back a hexadecimal id gives its bytes, two digits a byte |
| Packfile.Writer.AddFile | internal/packfile/packfile.go:167-175 | Appends name, hexadecimal blob id and size, and leaves the objects alone |
| Packfile.Writer.WriteTo | internal/packfile/packfile.go:81-118 | For a writer that stops at any point: the total is the number of bytes accepted, those bytes open the stream, and success means all of it |
| Packfile.Delta | internal/packfile/packfile.go:193-208 | The two loops return the objects of the current version whose hash is not held |
| Packfile.MissingHashes | internal/packfile/packfile.go:193-208 | The hashes returned are exactly the current ones less those held |
| Packfile.MissingInOrder | internal/packfile/packfile.go:193-208 | What is returned is an order-preserving subsequence of the current version |
| Packfile.IncrementalSync | internal/packfile/packfile.go:193-208 | Over a whole history of rounds: after each the client holds that version, nothing sent was held, the order is kept, and nothing is sent in two rounds |
| Packfile.NoHashSentTwiceIff | internal/packfile/packfile.go:200-207 | One round sends no hash twice if and only if no two objects of the version that are not held share a hash |
| Packfile.EqualObjectsAreBothSent | internal/packfile/packfile.go:200-207 | Two equal objects that are not held are both sent |
| ConfigParser.Parser.Advance | internal/config/parser.go:29-39 | Moves over one character; line is 1 + newlines consumed, column is 1 + bytes since the last newline, the position is inside the input |
| ConfigParser.Parser.SkipWhitespace | internal/config/parser.go:41-55 | Consumes exactly the blanks and comments; the cursor invariant holds and the position never decreases |
| ConfigParser.Parser.Word | internal/config/parser.go:57-68 | The word and the rest are those of the specification; the cursor invariant holds |
| ConfigParser.Parser.BracketList | internal/config/parser.go:91-118 | Items, refusal and rest are those of the specification; the cursor invariant holds |
| ConfigParser.Parser.QuotedString | internal/config/parser.go:410-429 | The unescaped text, the refusal at the end of input and the rest are those of the specification |
| ConfigParser.Parser.CommandsBlock | internal/config/parser.go:240-269 | The list of commands, the missing-route refusal and the rest are those of the specification |
| ConfigParser.Parser.MetaBlock | internal/config/parser.go:271-325 | The feeds, site map and robots settings and the rest are those of the specification, which the printer's round trip pins down |
| ConfigParser.ReadFeed | internal/config/parser.go:288-295 | The loop over the parts keeps the path and the last format |
| ConfigParser.ReadSitemap | internal/config/parser.go:297-303 | The loop sets the path, and the flag when some part asks for it |
| ConfigParser.ReadRobots | internal/config/parser.go:305-322 | The loops over the parts and the list items compute the delay and the list of the specification |
| ConfigMeta.FeedRead | internal/config/parser.go:287-295 | A written feed line adds exactly that feed |
| ConfigMeta.SitemapRead | internal/config/parser.go:296-303 | A written site map line sets exactly that path and flag |
| ConfigMeta.RobotsRead | internal/config/parser.go:304-322 | A written robots line gives back the delay and every path of the list, for paths without white space, commas and outer quotes |
| ConfigParser.Parser.McpBlock | internal/config/parser.go:327-374 | The server, its grants, the refusals and the rest are those of the specification |
| ConfigParser.Parser.AuthBlock | internal/config/parser.go:477-506 | Both grant blocks: the lists, and that only the one inside mcp refuses an unknown tier |
| ConfigParser.Parser.ProxyCacheBlock | internal/config/parser.go:431-475 | The cache settings, a bad redirect count and the rest are those of the specification |
| ConfigParser.Parser.LimitsBlock | internal/config/parser.go:508-533 | The three rate specifications and the rest are those of the specification |
| ConfigParser.Parser.Site | internal/config/parser.go:156-238 | A whole site, each of its refusals and the rest are those of the specification, whose defaults and keywords `ConfigDirectives.ParseOfDirectives` spells out |
| ConfigParser.ParseText | internal/config/parser.go:130-154 | On every input on which the program returns, the result is that of the specification and the cursor invariant holds at the end |
| ConfigSyntax.ParseConfig | internal/config/parser.go:130-154 | Success means that the whole input was consumed |
| ConfigPrinter.ParseOfPrint | internal/config/parser.go:130-533 | Printing any printable configuration, with all its blocks, one directive a line with any blank lines, indentation and comments between, and parsing it returns the same configuration with all input consumed |
| ConfigDirectives.ParseOfDirectives | internal/config/parser.go:130-533 | A file of any sites, each with any directives in any order, left out, repeated or in part: it parses, all of it, to what the directives say one after the other, starting from defaults written out as values; a block starts afresh from its own, and cache keywords and tiers of an auth or limits block that the program does not know are passed over |
| ConfigDirectives.EmptySite | internal/config/parser.go:165-168 | The empty block parses to port 22443, empty words, no lists and no mcp |
| ConfigDirectives.LeftOutIsDefault | internal/config/parser.go:165-238 | Each of the eleven directives that a site leaves out has its default, by value, whatever the others are |
| ConfigDirectives.LeftOutInCache | internal/config/parser.go:431-475 | The same of each line of a proxy-cache block |
| ConfigDirectives.LeftOutInTiers | internal/config/parser.go:477-533 | The same of each tier of an auth block and of a limits block |
| ConfigDirectives.LeftOutInServices | internal/config/parser.go:271-374 | The same of the parts of an mcp block and of a meta block |
| ConfigDirectives.LastOneCounts | internal/config/parser.go:180-232 | Of the directives of one kind the last counts, whatever stands before and after it |
| ConfigDirectives.McpBack | internal/config/parser.go:327-374 | An mcp block is refused if and only if it has no server line; else its servers and grants are taken in order |
| ConfigDirectives.UnknownDirectiveRefused | internal/config/parser.go:234-236 | Any word but the eleven, where a directive is due, is refused by name, whatever stands before it and after |
| ConfigPrinter.QuotedStringBack | internal/config/parser.go:410-429 | Escaping and reading back any command, with quotes and backslashes anywhere, returns it |
| ConfigPrinter.BracketListBack | internal/config/parser.go:91-118 | Any list of trimmed items, with spaces inside them, is read back item for item |
| ConfigGaps.GapsDoNotMatter | internal/config/parser.go:41-55 | For any text that is accepted, putting any blanks and whole-line comments before any of its directives and closing braces leaves the result unchanged, in all blocks |
| ConfigGaps.WithoutGapsNothingChanges | internal/config/parser.go:41-55 | With no gaps to put, the text is left as it was: gaps are all that is inserted |
| ConfigGaps.ListItemsLocal | internal/config/parser.go:91-118 | A bracket list's items do not depend on the text after it |
| ConfigGaps.QuotedStringLocal | internal/config/parser.go:410-429 | A quoted string's value does not depend on the text after it |
| McpProxy.TrimCRLF | internal/mcpproxy/mcpproxy.go:242-247 | Takes off exactly the trailing run of line-end characters |
| McpProxy.Proxy.Call | internal/mcpproxy/mcpproxy.go:172-222 | One fresh id, one request followed by a newline unless the write fails, and lines consumed up to and including the first that answers that id, whose result is returned; a read failure means no line answered |
| McpProxy.Proxy.Notify | internal/mcpproxy/mcpproxy.go:224-240 | Puts an opening of one notification and its newline on the pipe, all of it on success, and reads nothing |
| McpProxy.RunKeepsInv | internal/mcpproxy/mcpproxy.go:172-240 | Mutual exclusion, id order, one answer per id, own answers, nothing foreign outstanding and one reader per line hold in every reachable state |
| McpProxy.OneAtATime | internal/mcpproxy/mcpproxy.go:172-176 | Under every interleaving no two callers are inside at once and the ids on the pipe increase |
| McpProxy.CallsGetTheirOwnAnswer | internal/mcpproxy/mcpproxy.go:195-221 | With a server that answers each request once, among any noise, every successful call returns the answer to its own request |
| McpProxy.NothingOutstandingWhenFree | internal/mcpproxy/mcpproxy.go:172-222 | After an error-free history a free mutex means no answer is outstanding |
| McpProxy.RequestLinesNotInterleaved | internal/mcpproxy/mcpproxy.go:172-240 | In every run, failed writes and reads included, the server's input is one chunk after another, each an opening of one message's line, with increasing ids; the whole ones are the messages sent, and only a failed write leaves another |
| McpProxy.WholeLinesUntilAWriteFails | internal/mcpproxy/mcpproxy.go:172-240 | While no write has failed, and none is under way, the server's input is whole lines only, in order |
| McpProxy.ServerSeesMessages | internal/mcpproxy/mcpproxy.go:172-240 | For every encoding without newlines: a server that splits its input at newlines sees, between messages of a run without a failed write, exactly the encodings of the messages sent, in order, and then nothing |
| McpProxy.LinesTheServerSees | internal/mcpproxy/mcpproxy.go:186-192 | After failed writes it sees those lines with each torn opening run together with what was written next |
| McpProxy.AnswersByValue | internal/mcpproxy/mcpproxy.go:200-221 | A line, with or without its line end, answers a call if and only if it decodes to an answer with that id |
| McpProxy.EachLineGoesToOneCaller | internal/mcpproxy/mcpproxy.go:195-199 | However many pieces a line is read in and whatever interleaves, all of them go to one caller |
| McpProxy.LinesReadOnce | internal/mcpproxy/mcpproxy.go:195-199 | Lines are consumed in order, and what one caller has read is never read again, over every run |
| McpProxy.UninterruptedCall | internal/mcpproxy/mcpproxy.go:172-222 | A call that nothing interrupts and that is answered does to the shared state what `Proxy.Call` promises of its fields |
| McpProxy.UninterruptedWriteFailure | internal/mcpproxy/mcpproxy.go:190-192 | The same for a write that fails before its first byte or part of the way |
| McpProxy.UninterruptedReadFailure | internal/mcpproxy/mcpproxy.go:194-198 | The same for a pipe that fails before an answer: every line is consumed |
| McpArgs.InvokeMcp | cmd/sshweb-mcp/ssh.go:153-160 | The loop over the map builds the line for some order of its keys, each once |
| McpArgs.ArgumentsSurvive | cmd/sshweb-mcp/ssh.go:153-160 | In every iteration order, the line split and parsed by the server yields the same tool and map if and only if tool, keys and values hold no white space, tool and keys are not empty and no key holds `=` |
| McpArgs.ParsedIsSendable | internal/commands/handler.go:561-569 | Whatever the server parses off a command line could have been sent |
| McpArgs.ToolCallArrives | internal/commands/handler.go:552-572 | From the client's map to the tool server: the line calls that tool with that map if and only if a server is configured and an inherited entry covers the line's words |
| McpArgs.ToolListsDecideNothing | internal/commands/handler.go:552-572 | For every command, words and session the same is done whatever the mcp block says |
| McpArgs.TrustedToolForAnonymous | internal/commands/handler.go:575-592 | A tool listed for trusted sessions only is called for an anonymous one that is granted `mcp` |
| Handler.ReadArguments | internal/commands/handler.go:561-569 | The loop returns the pairs with later ones winning, or the first word that is not a pair |
| Handler.FirstBadWord | internal/commands/handler.go:561-568 | The word refused is the first without a key |
| Sizes.ReadSize | internal/proxy/proxy.go:270-307 | The loops compute the wrapped value the theorems are about |
| Sizes.FirstUnitIsLongest | internal/proxy/proxy.go:276-298 | The first table entry that fits is the longest unit the text ends with |
| Sizes.UnitsByValue | internal/proxy/proxy.go:276-298 | Each unit of the table stands for the power of 1024 it names |
| Sizes.UnitListed | internal/proxy/proxy.go:276-298 | Each of the ten units is in the table |
| Sizes.NoNumberNoSize | internal/proxy/proxy.go:259-307 | Without a number in front there is no size, and the limit is 64 MiB |
| Sizes.ParseSizeExactly | internal/proxy/proxy.go:270-307 | For digits and a unit in any letter case, with spaces around each, the result is the exact product if and only if the number is positive and the product is below 2^63 |
| Sizes.ReadsModulo | internal/proxy/proxy.go:299-306 | Every decimal number is read as its wrapped 64-bit value, and accepted when that is positive |
| Sizes.OverflowIsAccepted | internal/proxy/proxy.go:299-306 | For one, 2^64 + 1 is read as 1 and accepted |
| Sizes.MaxResponseBytes | internal/proxy/proxy.go:259-264 | The limit is positive and fits in 64 bits whatever the configuration says |
| Sizes.AcceptedBodyIsWhole | internal/proxy/proxy.go:191-197 | A body that passes the size check without being whole means the limit 2^63 - 1 and a nonempty body, and these always do |
| Sizes.LargestLimitIsReachable | internal/proxy/proxy.go:259-264 | A configured size sets the limit 2^63 - 1 |
| Redirects.FindOrigin | internal/proxy/proxy.go:237-250 | The loop answers whether some allowed origin matches the host |
| Redirects.StarOrigin | internal/proxy/proxy.go:237-250 | A star allows every host unless denied |
| Redirects.StarredOrigin | internal/proxy/proxy.go:237-250 | A starred domain allows exactly the hosts that end in a dot and the domain |
| Redirects.NamedOrigin | internal/proxy/proxy.go:237-250 | Any other origin allows exactly the host it names |
| Redirects.FollowIff | internal/proxy/proxy.go:110-131 | A redirect is followed if and only if redirects are on, requests are left, and it goes to an HTTP URL without user data on an allowed host |
| Redirects.Get | internal/proxy/proxy.go:110-131 | Against any upstream: at most the limit of requests along its redirects, each to a permitted URL; exactly one when redirects are disabled, and its response is the result; a missing response means a network error or a refused redirect |
| Redirects.OneRequestIff | internal/proxy/proxy.go:110-131 | For a permitted first URL, every upstream gets exactly one request if and only if redirects are disabled by name or limited to one |
| Redirects.LoopUsesTheLimit | internal/proxy/proxy.go:113-120 | An upstream that goes on redirecting gets exactly the limit of requests |
| Redirects.MaxRedirectsZero | internal/proxy/proxy.go:114-117 | With the setting 0 that is ten |
| ProxyCache.Cache.FetchResponse | internal/proxy/proxy.go:148-222 | A refused URL contacts nobody; a fresh entry is returned as it is; otherwise what is stored and returned is the chain's last reply itself: its code and status, its whole body within the limit, and for every name off the list exactly its values; failures leave the cache alone and no other entry changes |
| ProxyCache.Cache.Fetch | internal/proxy/proxy.go:183-221 | The fetch, the capture and the store, with the same relation to the last reply |
| ProxyCache.PrecheckByValue | internal/proxy/proxy.go:148-172 | A URL passes the checks if and only if it parses as HTTP, has a host and no user data, the host is allowed, and it is no blocked literal address unless those are let in |
| ProxyCache.CapturedIsTheReply | internal/proxy/proxy.go:183-205 | A reply is kept if and only if it can be read, fits the limit and is no redirect unless those are off; then its body is the reply's own |
| ProxyCache.CapturedKeeps | internal/proxy/proxy.go:200-211 | A kept reply has the reply's code, status and, off the list, fields |
| ProxyCache.ServedIsTheReply | internal/commands/handler.go:673-705 | End to end: whoever reads the served bytes gets the upstream's own code, text, body and fields off the list, and the daemon's framing |
| ProxyCache.ProxyCallBinary | internal/commands/handler.go:660-706 | On a miss what is served is the captured last reply of a chain of permitted requests; serving mutates the cached header, yet the header the entry's next serving shows, in whatever order, is the one this one showed, and no other entry is touched |
| ProxyCache.Capture | internal/proxy/proxy.go:183-211 | Failures, an over-long body, and otherwise the reply without hop-by-hop fields |
| CacheRuns.EveryRunIsGenuine | internal/proxy/proxy.go:144-222 | Under every interleaving of check, fetch and store: all that is cached, about to be stored or returned came from a completed fetch of that permitted URL within the limit; what is served from the cache was not older than the TTL when checked, and any other success is the caller's own fetch |
| CacheRuns.FetchTimesNeverGoBack | internal/proxy/proxy.go:213-219 | No entry is dropped or replaced by one fetched earlier |
| CacheRuns.FetchesApartWithoutOverlap | internal/proxy/proxy.go:175-219 | In every run, of any number of callers, in which no URL is checked while another caller is between check and store of it, successful fetches of one URL are more than a TTL apart |
| CacheRuns.OverlapMayFetchTwice | internal/proxy/proxy.go:175-219 | From every reachable state with two callers in flight on one URL there is a continuation in which they are not |
| CacheRuns.SingleCallerFetchesApart | internal/proxy/proxy.go:175-219 | In a run in which a single caller checks, successful fetches of one URL are more than a TTL apart |
| CacheRuns.TwoCallersMayBothFetch | internal/proxy/proxy.go:175-180 | For any permitted URL and two callers there is a run in which they are not |
| CacheRuns.RaceFreeIff | internal/commands/handler.go:687-698 | In every run, no range over a header sees it change if and only if no serving sets the header of a response while another ranges over it |
| CacheRuns.EveryServingShowsTheSame | internal/commands/handler.go:687-698 | In every run without such a race, however servings, fetches and stores interleave, each finished serving of a response has written, for each name, exactly the captured values under the daemon's framing |
| CacheRuns.RaceHappens | internal/commands/handler.go:687-698 | For any permitted URL there is a run in which a set falls inside a range |
| CacheRuns.RacedMayShowAnything | internal/commands/handler.go:692-698 | From every reachable state in which a range has seen its header change, any further fields may be written for it |
| CacheCalls.FetchAsInARun | internal/proxy/proxy.go:148-222 | A call of `Cache.FetchResponse` ends as the machine's steps for it in a row do, in each of its cases: the same entries with the same times, bodies and headers, and the response the machine hands out |
| CacheCalls.RunOfCall | internal/proxy/proxy.go:148-222 | Those steps can be taken from any state, and leave one more return and, on a fetch that is kept, one more entry and header |
| Http.Response.DeleteHopByHop | internal/proxy/proxy.go:207-211 | The loop deletes exactly the listed fields |
| Http.WriteResponse | internal/commands/handler.go:678-705 | The sink receives an opening of the framed message, all of it on success, and the shared header ends up framed |
| Http.WriteFetched | internal/commands/handler.go:330-359 | The same message from a copy of the backend's header |
| Http.ServedCanBeRead | internal/commands/handler.go:678-705 | A reader that takes Content-Length bytes after the blank line recovers the status line, for each name exactly the header's values, and the body, whatever follows |
| Http.EveryServingAlike | internal/commands/handler.go:687-698 | However often the shared header has been framed, each serving shows the same fields |
| Http.HopByHopGone | internal/proxy/proxy.go:226-235 | No field on the program's list is served, except the daemon's own Connection |
| Http.HopByHopNames | internal/proxy/proxy.go:226-235 | That list, name by name |
| Http.StatusTextAfterCode | internal/commands/handler.go:721-730 | The code that a status opens with is taken off, and its text kept |
| Http.StatusTextKeptIff | internal/commands/handler.go:724-730 | A text without a code is kept if and only if it has no space |
| Http.EndToEndIff | internal/proxy/proxy.go:205-235 | The message carries no hop-by-hop field of the upstream, listed or nominated by its Connection, if and only if the upstream has no Trailer and no nominated field outside the list |
| Http.TrailerIsForwarded | internal/proxy/proxy.go:226-235 | An upstream Trailer is served |
| Http.NominatedIsForwarded | internal/proxy/proxy.go:207-211 | A field that the upstream's Connection nominates is served |
| Http.NominatedWitness | internal/proxy/proxy.go:207-211 | For one, X-Hop |
| Auth.IsCommandAllowed | internal/auth/auth.go:162-219 | The scan with its early exits answers whether some inherited entry covers the words |
| Auth.AllowedIffAnEntryMatches | internal/auth/auth.go:162-219 | Permission holds if and only if an inherited entry's words are a prefix of the command's, or a wildcard's stem opens the verb |
| Auth.MatchEntry | internal/auth/auth.go:182-216 | One entry against the words, with the verb-only short cut |
| Auth.EntryOfWords | internal/auth/auth.go:182-216 | An entry written from words whose last does not end in a star, with any spaces around and between, matches if and only if its words open the command |
| Auth.GrantedByValue | internal/auth/auth.go:162-178 | Which lists each tier inherits, and in which order |
| Auth.TiersInherit | internal/auth/auth.go:162-178 | What a tier may run, every higher tier may run |
| Auth.RejoinedWords | internal/commands/handler.go:124-129 | Joining a tokenised line and splitting it again returns the same words |
| Auth.SpacedWildcardIsDead | internal/auth/auth.go:188-195 | A wildcard with a space in its stem permits no command line |
| Auth.WildcardAsDocumented | internal/auth/auth.go:154-161 | A wildcard decides as its comment says if and only if its stem has no space or does not open the line |
| Auth.TierForCommandIsLeast | internal/commands/handler.go:277-285 | No tier below the answer permits the command, and an answer below trusted permits it |
| Routes.MatchRoute | internal/commands/handler.go:759-785 | The walk with its early exits equals the declarative relation on segments |
| Routes.EarlyCatchAllMatchesOnlyItself | internal/commands/handler.go:770-774 | A catch-all before the end leaves only string equality |
| Routes.QueryIndependence | internal/commands/handler.go:763-765 | For a pattern without `?`, the query never decides the match if and only if there is no catch-all before the end |
| Routes.FilledPatterns | internal/commands/handler.go:759-785 | For patterns and paths written from segments, matching is equality or the pointwise relation on those very segments |
| Routes.PatternsMean | internal/commands/handler.go:754-785 | A pattern written from fixed segments, parameters and catch-alls matches exactly itself and the paths that fit it segment by segment |
| Handler.FindRoute | internal/commands/handler.go:736-752 | The loop with its skips answers whether some declared command fits |
| Handler.RouteAllowedIffDeclared | internal/commands/handler.go:736-752 | A route is allowed if and only if a declared command of that kind, and method for api calls, matches the path |
| Handler.FormsAgreeIff | internal/commands/handler.go:89-158 | The binary form does what the text form does, up to the output's form, if and only if the command is not a permitted `receive-pack` of something that cannot be packed on a site with a backend; then the text form fails and the binary one asks the backend for it |
| Handler.ExecuteBinary | internal/commands/handler.go:134-158 | Denied in the same cases as the text form, and an api call is forwarded in the same cases |
| Handler.BackendReachedIff | internal/commands/handler.go:297-360 | From the command line on: the backend is sent a request if and only if there is one, an inherited entry covers the words, and the line is a declared api call or a `receive-pack` of something that cannot be packed |
| Handler.CallForwardedIff | internal/commands/handler.go:598-623 | An api call is forwarded if and only if an inherited entry covers the words, the method and route were declared, and there is a backend |
| Handler.UndeclaredForwardedIff | internal/commands/handler.go:732-752 | A route that was not declared is forwarded exactly for a covered `receive-pack` of something that cannot be packed and that no `receive-pack` command declares, with a backend |
| Handler.UndeclaredResource | internal/commands/handler.go:312-326 | For one: with no root, a backend, and `receive-pack /` declared and granted, every path of one segment is |
| Handler.AdminIsForwarded | internal/commands/handler.go:312-326 | `receive-pack /admin` among them |
| Handler.ProxyReachedIffPermitted | internal/commands/handler.go:660-671 | A URL is fetched if and only if the line asks for it with GET, a cache is configured and an inherited entry covers the words |
| Handler.UncoveredLineDoesNothing | internal/commands/handler.go:89-158 | In both forms a line other than `capabilities` is denied if and only if nothing covers its words |
| Handler.OneEntryPermits | internal/auth/auth.go:162-219 | With a single entry granted, a line other than `capabilities` is permitted if and only if its first words are the entry's |
| Handler.ForwardedAsAsked | internal/commands/handler.go:598-623 | What the backend is sent has the line's method in upper case, its path, and the rest of its words as the body |
| Handler.PackedAsAsked | internal/commands/handler.go:297-326 | Which route a covered `receive-pack` serves, and when it is packed, fetched or neither |
| Handler.EachVerb | internal/commands/handler.go:89-122 | What each of the other verbs leads to, and that any other word is unknown |
| Server.EnvPayloadExactly | internal/server/server.go:300-317 | Parsing succeeds exactly on payloads that open with two SSH strings (section 5 of RFC 4251) and returns those two |
| Server.ExecPayloadExactly | internal/server/server.go:240-252 | A command is read exactly from payloads that open with it as an SSH string |
| Server.StartsExactly | internal/server/server.go:240-262 | What starts something is a `shell` request, or an `exec` request that opens with a command |
| Server.AcceptedExactly | internal/server/server.go:224-267 | What is answered yes is that, and an `env` request that opens with a name and a value |
| Server.AnnouncedExactly | internal/server/server.go:229-238 | A key is announced exactly by an `env` request that sets SSHWEB_PUBKEY to it |
| Server.LastKeyCounts | internal/server/server.go:229-238 | The last announcement counts, or without one the connection's key |
| Server.RunExactly | internal/server/server.go:240-262 | What runs is a shell, or the command that the payload opens with |
| Server.HandleSession | internal/server/server.go:224-267 | Over any request sequence at most one command or shell runs, the first that can, with tier and fingerprint unchanged and the last key announced; each request is answered |
| Server.ExecuteCommand | internal/server/server.go:269-298 | The exit status is 2 for an empty line, 3 for a limited one, 1 for a failure, else 0; an empty line spends no token; a limited one runs nothing; an admitted one does what the dispatcher says |

## Left out

- SSH handshake, listeners, host keys, process spawning, dialing and real HTTP clients: library calls and I/O.
- zlib and SHA-1 internals: the compressor is any self-delimiting code that can be undone, the hash any function to 20 bytes; `Packfile.SoundCodecExists` shows that the assumptions can be met.
- JSON marshalling, the capabilities manifest, the tool list and `mcpToolTier`: a message's bytes and a line's meaning are parameters, and marshalling does not fail.
- Floating-point rounding in the limiter: levels, rates and times are exact reals, and times do not decrease.
- The width of the JSON-RPC id: ids are unbounded.
- ConfigParser.ParseText: requires that the program returns; several blocks do not test for the end of input and then loop forever, and a meta line without a path indexes out of range. `ConfigSyntax.Outcome` names both, and every input on which the program returns is covered.
- ConfigPrinter.ParseOfPrint: a robots list is printed only if its paths hold no white space, since the line is split on it first; an mcp block holds a command or a URL, as the syntax does.
- ConfigDirectives.ParseOfDirectives: yes-or-no answers are written in lower case, and values as `ConfigPrinter` can print them.
- ConfigGaps.GapsDoNotMatter: gaps go before directives and closing braces, not between the words of one directive.
- ConfigParser: strings hold code points, so positions count characters where the program counts bytes (columns count bytes), and input that is not UTF-8 is not modelled; in `Http` a character is one byte.
- Http.EndToEndIff: the canonical form of a connection option is a parameter.
- Http.ServedCanBeRead: for headers without line breaks in names and values, which is what Go's HTTP client lets through.
- McpProxy.EachLineGoesToOneCaller: a pipe that fails in the middle of a line has ended, as an operating system pipe has; the rest of that line never arrives.
- McpProxy.CallsGetTheirOwnAnswer: for a server that answers each request at most once; one that answers twice can leave a stale line, which later calls skip because ids are fresh.
- CacheRuns.RaceFreeIff: each set of a field is one step, so two sets at one instant, which Go leaves undefined too, do not arise; a serving whose write fails is one that goes no further. `ProxyCache.ProxyCallBinary` serves one caller at a time.
- CacheRuns: URL checks, including the address check for literal hosts, are one predicate of the URL.
- The address check at dial time and IP range classification: they rest on library functions; only the check of literal hosts appears, as a flag.
- Handler.FormsAgreeIff: which routes can be read and packed is a parameter (`buildPackfile` walks the file system); letter case (`strings.ToUpper`, `EqualFold`) is a parameter; what an action then does to files, upstreams or the channel is a parameter of `Server.ExecuteCommand`.
- Building packfiles from the file system, path resolution, authorized-keys parsing, feeds, site map and robots output, the interactive session, the text form of receive-pack and the rest of the command-line clients: plumbing with only easy claims.
