/** The configuration the daemon runs on, as the parser builds it. */
module Config {
  import opened Wrappers

  datatype Config = Config(sites: seq<SiteConfig>)

  datatype SiteConfig = SiteConfig(
    host: string,
    port: int,
    hostKey: string,
    root: string,
    backend: string,
    authorizedKeys: string,
    commands: seq<CommandConfig>,
    proxyCache: ProxyCacheConfig,
    auth: AuthConfig,
    limits: LimitsConfig,
    mcp: Option<MCPConfig>,
    meta: MetaConfig)

  datatype CommandConfig = CommandConfig(kind: string, method_: string, route: string)

  datatype ProxyCacheConfig = ProxyCacheConfig(
    allowedOrigins: seq<string>,
    denyAll: bool,
    ttl: string,
    maxSize: string,
    storagePath: string,
    maxRedirects: int,
    allowPrivateIPs: bool,
    allowRedirects: Option<bool>)

  /** The lists of names granted to each tier; both `auth` blocks have this shape. */
  datatype AuthConfig = AuthConfig(anonymous: seq<string>, identified: seq<string>, trusted: seq<string>)

  datatype LimitsConfig = LimitsConfig(anonymous: string, identified: string, trusted: string)

  datatype MCPConfig = MCPConfig(transport: string, command: string, url: string, auth: AuthConfig)

  datatype MetaConfig = MetaConfig(feeds: seq<FeedConfig>, sitemap: SitemapConfig, robots: RobotsConfig)

  datatype FeedConfig = FeedConfig(path: string, format: string)

  datatype SitemapConfig = SitemapConfig(path: string, dynamic: bool)

  datatype RobotsConfig = RobotsConfig(crawlDelay: int, allowedPaths: seq<string>)

  const TIER_ANONYMOUS := "anonymous"
  const TIER_IDENTIFIED := "identified"
  const TIER_TRUSTED := "trusted"

  lemma TiersDiffer()
    ensures TIER_ANONYMOUS != TIER_IDENTIFIED && TIER_ANONYMOUS != TIER_TRUSTED && TIER_IDENTIFIED != TIER_TRUSTED
  {
  }

  const NO_AUTH := AuthConfig([], [], [])
  const NO_LIMITS := LimitsConfig("", "", "")
  const NO_PROXY_CACHE := ProxyCacheConfig([], false, "", "", "", 0, false, None)
  const NO_META := MetaConfig([], SitemapConfig("", false), RobotsConfig(0, []))

  /** A site block before its first directive. */
  function NewSite(host: string): SiteConfig {
    SiteConfig(host, 22443, "", "", "", "", [], NO_PROXY_CACHE, NO_AUTH, NO_LIMITS, None, NO_META)
  }
}
