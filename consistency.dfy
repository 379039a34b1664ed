/**
 How the pieces of the configuration agree with each other: the router's rewrite
 targets are the pages the build generates and the pages the history fallback's rewrite table serves,
 for the two configured entries `santorini` and `mykonos`.
 */
module Consistency {
  import opened Wrappers
  import opened JsStrings
  import opened Router
  import opened Config

  /** The router's rewrite target is `/` followed by the generated page's file name. */
  lemma RewriteTargetIsHtmlOutput(e: string)
    ensures RewriteTarget(e) == "/" + HtmlFilename(e)
  {
    assert RewriteTarget(e) == "/" + ("src/" + e + "/" + e + ".html");
  }

  /** Whatever the registry, a rewrite always lands on a page the build generates. */
  lemma RewriteLandsOnGeneratedPage(url: string, keys: set<string>)
    requires Route(url, keys).Rewrite?
    ensures |Route(url, keys).target| >= 1
    ensures Route(url, keys).target[1..] in HtmlFilenames(keys)
  {
    var e := Substring1(url);
    RewriteTargetIsHtmlOutput(e);
    assert Route(url, keys).target[1..] == HtmlFilename(e);
  }

  /** webpack builds the `main` chunk and one chunk per entry. */
  lemma EntryPointNames()
    ensures EntryPoints.Keys == {"main"} + Registry
  {
  }

  /** The configured registry: slash-free names, neither empty nor `main`. */
  lemma RegistryShape()
    ensures KeysSlashFree(Registry)
    ensures "main" !in Registry && "" !in Registry
  {
    assert SlashFree("santorini") by {
      var s := "santorini";
      assert forall k :: 0 <= k < |s| ==> s[k] != '/';
    }
    assert SlashFree("mykonos") by {
      var s := "mykonos";
      assert forall k :: 0 <= k < |s| ==> s[k] != '/';
    }
  }

  /** Each entry point gets its own bundle file, and none of them is an HTML page. */
  lemma BundlesDistinct(a: string, b: string)
    requires a in EntryPoints && b in EntryPoints && a != b
    ensures ChunkFilename(a) != ChunkFilename(b)
    ensures ChunkFilename(a) !in HtmlOutputs(Registry)
  {
    if ChunkFilename(a) == ChunkFilename(b) {
      ChunkFilenameInjective(a, b);
    }
    if ChunkFilename(a) in HtmlFilenames(Registry) {
      var e :| e in Registry && HtmlFilename(e) == ChunkFilename(a);
      BundlesAreNotPages(a, e);
    }
    BundlesAreNotPages(a, "");
  }

  /** Every entry's short URL is rewritten to the page generated for it. */
  lemma EntryRewrittenToPage(e: string)
    requires e in Registry
    ensures Route("/" + e, Registry) == Rewrite("/" + HtmlFilename(e))
    ensures HtmlFilename(e) in HtmlFilenames(Registry)
  {
    RegistryShape();
    SlashFreeNotUnderSrc(e);
    RewritesEntry(Registry, e);
    RewriteTargetIsHtmlOutput(e);
  }

  /** The history-rewrite table a registry listed as `ks` calls for: `/<e>` to `/` + its page. */
  function RulesFor(ks: seq<string>): seq<RewriteRule>
  {
    seq(|ks|, i requires 0 <= i < |ks| => RewriteRule("/" + ks[i], "/" + HtmlFilename(ks[i])))
  }

  /** The configured table is exactly the one the registry calls for, in key order. */
  lemma ConfiguredRules()
    ensures FallbackRules == RulesFor(EntryNames)
  {
    var r := RulesFor(EntryNames);
    assert |r| == |FallbackRules| == 2;
    SantoriniRule();
    MykonosRule();
  }

  /** The first configured rule is the one the `santorini` entry calls for. */
  lemma SantoriniRule()
    ensures RulesFor(EntryNames)[0] == FallbackRules[0]
  {
    SantoriniPage();
  }

  /** The page written for `santorini` is the literal target of its fallback rule. */
  lemma SantoriniPage()
    ensures "/" + HtmlFilename("santorini") == "/src/santorini/santorini.html"
  {
  }

  /** The second configured rule is the one the `mykonos` entry calls for. */
  lemma MykonosRule()
    ensures RulesFor(EntryNames)[1] == FallbackRules[1]
  {
    MykonosPage();
  }

  /** The page written for `mykonos` is the literal target of its fallback rule. */
  lemma MykonosPage()
    ensures "/" + HtmlFilename("mykonos") == "/src/mykonos/mykonos.html"
  {
  }

  /**
   For any registry of slash-free keys, on paths that begin with `/` the router
   rewrites exactly the paths the registry's rewrite table rewrites, to the same target.
   */
  lemma RouterMatchesRules(url: string, keys: set<string>, ks: seq<string>)
    requires |url| >= 1 && url[0] == '/'
    requires forall k :: k in keys <==> k in ks
    requires KeysSlashFree(keys)
    ensures Route(url, keys).Rewrite? <==> FallbackRewrite(RulesFor(ks), url).Some?
    ensures Route(url, keys).Rewrite? ==>
      Route(url, keys).target == FallbackRewrite(RulesFor(ks), url).value
  {
    var e := url[1..];
    var rules := RulesFor(ks);
    FallbackRewriteFirstMatch(rules, url);
    assert url == "/" + e;
    forall i | 0 <= i < |rules| ensures rules[i].from == url <==> ks[i] == e {
      assert ("/" + ks[i])[1..] == ks[i];
    }
    if e in keys {
      SlashFreeNotUnderSrc(e);
      RewritesEntry(keys, e);
      RewriteTargetIsHtmlOutput(e);
      var i :| 0 <= i < |ks| && ks[i] == e;
      assert rules[i].from == url;
      var r := FallbackRewrite(rules, url);
      var j :| 0 <= j < |rules| && rules[j].from == url && rules[j].to == r.value;
      assert ks[j] == e;
    } else {
      assert FallbackRewrite(rules, url).None?;
    }
  }

  /** The rewrite table serves every entry's short URL the same generated page. */
  lemma EntryInFallback(e: string)
    requires e in Registry
    ensures FallbackRewrite(FallbackRules, "/" + e) == Some("/" + HtmlFilename(e))
  {
    ConfiguredRules();
    RegistryShape();
    RegistryIsEntryKeys();
    RouterMatchesRules("/" + e, Registry, EntryNames);
    EntryRewrittenToPage(e);
  }

  /** The configured table rewrites every path exactly as the naming scheme's table does. */
  lemma ConfiguredRewrite(url: string)
    ensures FallbackRewrite(FallbackRules, url) == FallbackRewrite(RulesFor(EntryNames), url)
  {
    ConfiguredRules();
  }

  /**
   For the configured registry, on paths that begin with `/`, the router rewrites exactly
   what the naming scheme's table rewrites, and to the same target.
   */
  lemma RouterMatchesScheme(url: string)
    requires |url| >= 1 && url[0] == '/'
    ensures Route(url, Registry).Rewrite? <==> FallbackRewrite(RulesFor(EntryNames), url).Some?
    ensures Route(url, Registry).Rewrite? ==>
      Route(url, Registry).target == FallbackRewrite(RulesFor(EntryNames), url).value
  {
    RegistryShape();
    RegistryIsEntryKeys();
    RouterMatchesRules(url, Registry, EntryNames);
  }

  /**
   On paths that begin with `/`, the router rewrites exactly the paths the configured
   history rewrite table rewrites, and to the same target.
   */
  lemma RouterMatchesFallback(url: string)
    requires |url| >= 1 && url[0] == '/'
    ensures Route(url, Registry).Rewrite? <==> FallbackRewrite(FallbackRules, url).Some?
    ensures Route(url, Registry).Rewrite? ==>
      Route(url, Registry).target == FallbackRewrite(FallbackRules, url).value
  {
    ConfiguredRewrite(url);
    RouterMatchesScheme(url);
  }

  /**
   The router looks at `url.substring(1)` without checking that the first character is
   `/`, so `xsantorini` is rewritten just like `/santorini`; the rewrite table rewrites
   only the latter.
   */
  lemma FirstCharacterIgnored(c: char)
    ensures Route([c] + "santorini", Registry) == Rewrite(RewriteTarget("santorini"))
    ensures c != '/' ==> FallbackRewrite(FallbackRules, [c] + "santorini") == None
  {
    var u := [c] + "santorini";
    assert u[..5][2] == 'a';
    assert Substring1(u) == "santorini";
    assert forall i :: 0 <= i < |FallbackRules| ==> FallbackRules[i].from[0] == '/';
    FallbackRewriteFirstMatch(FallbackRules, u);
  }

  /** Every file under a configured entry's directory is redirected to the entry. */
  lemma ConfiguredRedirects(f: string)
    ensures Route("/src/santorini/" + f, Registry) == Redirect("/santorini")
    ensures Route("/src/mykonos/" + f, Registry) == Redirect("/mykonos")
  {
    RegistryShape();
    RedirectsEntryPath(Registry, "santorini", f);
    assert "/src/santorini/" + f == "/src/" + "santorini" + "/" + f;
    RedirectsEntryPath(Registry, "mykonos", f);
    assert "/src/mykonos/" + f == "/src/" + "mykonos" + "/" + f;
  }

  /** Under `/src/`, an unknown directory or none at all passes through. */
  lemma ConfiguredSrcPassThrough(f: string)
    ensures Route("/src/unknown/" + f, Registry) == PassThrough
    ensures Route("/src/", Registry) == PassThrough
  {
    RegistryShape();
    var u := "/src/unknown/" + f;
    SrcRouting(u, Registry);
    assert u[5..] == "unknown" + "/" + f;
    assert SlashFree("unknown") by {
      var s := "unknown";
      assert forall k :: 0 <= k < |s| ==> s[k] != '/';
    }
    SplitAfterPiece("unknown", f);
    SrcRoot(Registry);
  }

  /**
   Membership is exact string equality: a short URL with anything after the entry
   name (a slash, a query string) passes through unchanged.
   */
  lemma SuffixedShortUrlsPassThrough(s: string)
    requires s != ""
    ensures Route("/santorini" + s, Registry) == PassThrough
    ensures Route("/mykonos" + s, Registry) == PassThrough
  {
    RegistryShape();
    var a, b := "/santorini" + s, "/mykonos" + s;
    assert a[..5][2] == 'a' && b[..5][1] == 'm';
    assert |Substring1(a)| > |"santorini"| && |Substring1(b)| > |"mykonos"|;
    assert Substring1(b)[0] == 'm';
  }

  /**
   With a query string the router and the history fallback part ways: the router sees
   the whole URL `/santorini?<q>` and passes it through, while the fallback matches the
   rewrite table against the pathname `/santorini` and serves the entry's page.
   */
  lemma QueryStringDisagreement(q: string)
    ensures Route("/santorini" + "?" + q, Registry) == PassThrough
    ensures FallbackRewrite(FallbackRules, "/santorini") == Some("/src/santorini/santorini.html")
  {
    SuffixedShortUrlsPassThrough("?" + q);
    assert "/santorini" + "?" + q == "/santorini" + ("?" + q);
    EntryInFallback("santorini");
    SantoriniPage();
  }

  /** The root and unknown short URLs pass through unchanged. */
  lemma UnknownShortUrlsPassThrough()
    ensures Route("/", Registry) == PassThrough
    ensures Route("/unknown", Registry) == PassThrough
    ensures Route("", Registry) == PassThrough
  {
    RegistryShape();
    assert Substring1("/") == "";
    assert "/unknown"[..5][1] == 'u';
    assert Substring1("/unknown") == "unknown";
  }
}
