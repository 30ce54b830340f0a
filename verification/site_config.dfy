/**
 * The site configuration: the configuration file's values with five
 * environment variables laid over them. The environment is passed in as a
 * map from variable name to value; a missing key is an undefined variable.
 */
module SiteConfig {
  import opened Text

  datatype Contact = Contact(email: Option<string>, privacyEmail: Option<string>, legalEmail: Option<string>)
  datatype Links = Links(twitter: Option<string>, github: Option<string>, linkedin: Option<string>)
  datatype LegalPages = LegalPages(privacy: bool, terms: bool, cookies: bool)
  datatype Features = Features(cookieBanner: bool, analytics: bool, legalPages: LegalPages)
  datatype TwitterCard = Summary | SummaryLargeImage
  datatype Seo = Seo(ogImage: Option<string>, twitterCard: Option<TwitterCard>)

  datatype Config = Config(
    name: string, description: string, url: string,
    contact: Contact, links: Links, features: Features, seo: Seo)

  type Env = map<string, string>

  const SITE_NAME := "NEXT_PUBLIC_SITE_NAME"
  const SITE_URL := "NEXT_PUBLIC_SITE_URL"
  const SITE_DESCRIPTION := "NEXT_PUBLIC_SITE_DESCRIPTION"
  const ANALYTICS_ENABLED := "NEXT_PUBLIC_ANALYTICS_ENABLED"
  const COOKIE_BANNER_ENABLED := "NEXT_PUBLIC_COOKIE_BANNER_ENABLED"

  /** `process.env[key]`. */
  function Lookup(env: Env, key: string): (r: Option<string>)
    ensures r.Some? <==> key in env
    ensures r.Some? ==> r.value == env[key]
  {
    if key in env then Some(env[key]) else None
  }

  /** `parseBooleanEnv`: an undefined variable keeps the fallback; a defined one is true when it spells `true` in any case. */
  function ParseBooleanEnv(value: Option<string>, fallback: bool): bool {
    match value
    case None => fallback
    case Some(v) => Lower(v) == "true"
  }

  /** `getSiteConfig`. */
  function GetSiteConfig(base: Config, env: Env): (r: Config)
    ensures r.contact == base.contact && r.links == base.links && r.seo == base.seo
    ensures r.features.legalPages == base.features.legalPages
  {
    base.(
      name := Lookup(env, SITE_NAME).GetOr(base.name),
      url := Lookup(env, SITE_URL).GetOr(base.url),
      description := Lookup(env, SITE_DESCRIPTION).GetOr(base.description),
      features := base.features.(
        cookieBanner := ParseBooleanEnv(Lookup(env, COOKIE_BANNER_ENABLED), base.features.cookieBanner),
        analytics := ParseBooleanEnv(Lookup(env, ANALYTICS_ENABLED), base.features.analytics)))
  }

  /** How a flag is written back into the environment. */
  function FlagText(b: bool): string {
    if b then "true" else "false"
  }

  lemma LowerCharOfUpper(c: char)
    ensures LowerChar(UpperChar(c)) == LowerChar(c)
  {
  }

  /**
   * A defined value decides the flag whatever the fallback, case does not
   * matter, a written flag reads back as itself, and `TRUE` is true while
   * the empty string, `1` and `yes` are false.
   */
  lemma ParseBooleanEnvFacts(v: string, f: bool, g: bool, b: bool)
    ensures ParseBooleanEnv(None, f) == f
    ensures ParseBooleanEnv(Some(v), f) == ParseBooleanEnv(Some(v), g)
    ensures ParseBooleanEnv(Some(Upper(v)), f) == ParseBooleanEnv(Some(v), f)
    ensures ParseBooleanEnv(Some(FlagText(b)), f) == b
    ensures ParseBooleanEnv(Some("TRUE"), false) && ParseBooleanEnv(Some("True"), false)
    ensures !ParseBooleanEnv(Some(""), true) && !ParseBooleanEnv(Some("1"), true) && !ParseBooleanEnv(Some("yes"), true)
  {
    forall i | 0 <= i < |v| ensures Lower(Upper(v))[i] == Lower(v)[i] {
      LowerCharOfUpper(v[i]);
    }
    assert Lower(Upper(v)) == Lower(v);
    assert Lower("TRUE") == "true";
    assert Lower("True") == "true";
    assert Lower(FlagText(b)) == FlagText(b);
  }

  /** With none of the five variables set, the configuration file's values stand. */
  lemma EmptyEnvKeepsBase(base: Config, env: Env)
    requires SITE_NAME !in env && SITE_URL !in env && SITE_DESCRIPTION !in env
    requires ANALYTICS_ENABLED !in env && COOKIE_BANNER_ENABLED !in env
    ensures GetSiteConfig(base, env) == base
  {
  }

  /**
   * A defined text variable replaces the file's value, even when it is the
   * empty string; a defined flag variable decides the flag on its own.
   */
  lemma DefinedVariablesWin(base: Config, env: Env)
    ensures SITE_NAME in env ==> GetSiteConfig(base, env).name == env[SITE_NAME]
    ensures SITE_URL in env ==> GetSiteConfig(base, env).url == env[SITE_URL]
    ensures SITE_DESCRIPTION in env ==> GetSiteConfig(base, env).description == env[SITE_DESCRIPTION]
    ensures ANALYTICS_ENABLED in env ==> (GetSiteConfig(base, env).features.analytics <==> Lower(env[ANALYTICS_ENABLED]) == "true")
    ensures COOKIE_BANNER_ENABLED in env ==> (GetSiteConfig(base, env).features.cookieBanner <==> Lower(env[COOKIE_BANNER_ENABLED]) == "true")
    ensures GetSiteConfig(base, env[SITE_NAME := ""]).name == ""
  {
  }

  /** Laying the same environment over the result again changes nothing. */
  lemma GetSiteConfigIdempotent(base: Config, env: Env)
    ensures GetSiteConfig(GetSiteConfig(base, env), env) == GetSiteConfig(base, env)
  {
  }

  /** Only the five variables matter: environments that agree on them give the same configuration. */
  lemma OnlyFiveVariablesMatter(base: Config, e1: Env, e2: Env)
    requires forall k | k in [SITE_NAME, SITE_URL, SITE_DESCRIPTION, ANALYTICS_ENABLED, COOKIE_BANNER_ENABLED] ::
               Lookup(e1, k) == Lookup(e2, k)
    ensures GetSiteConfig(base, e1) == GetSiteConfig(base, e2)
  {
    assert Lookup(e1, SITE_NAME) == Lookup(e2, SITE_NAME);
    assert Lookup(e1, SITE_URL) == Lookup(e2, SITE_URL);
    assert Lookup(e1, SITE_DESCRIPTION) == Lookup(e2, SITE_DESCRIPTION);
    assert Lookup(e1, ANALYTICS_ENABLED) == Lookup(e2, ANALYTICS_ENABLED);
    assert Lookup(e1, COOKIE_BANNER_ENABLED) == Lookup(e2, COOKIE_BANNER_ENABLED);
  }
}
