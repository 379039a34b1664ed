/**
 The declarative part of the configuration: the entry registry, the bundle file name
 chosen for each chunk, the HTML page generated for each entry and the dev server's
 history-fallback rewrite table.
 */
module Config {
  import opened Wrappers
  import opened JsStrings

  /** The entry registry: entry name to the module that starts it. */
  const Entries: map<string, string> :=
    map["santorini" := "./src/santorini/santorini.js", "mykonos" := "./src/mykonos/mykonos.js"]

  /** `Object.keys(entries)`, as a set: the router only asks it for membership. */
  const Registry: set<string> := {"santorini", "mykonos"}

  /** `Object.keys(entries)` in insertion order, the order the rewrite table follows. */
  const EntryNames: seq<string> := ["santorini", "mykonos"]

  /** `Registry` and `EntryNames` hold exactly the names the entry map defines. */
  lemma RegistryIsEntryKeys()
    ensures Entries.Keys == Registry
    ensures forall k :: k in EntryNames <==> k in Registry
  {
  }

  /** webpack's `entry`: `main` first, then the registry spread over it. */
  const EntryPoints: map<string, string> := map["main" := "./index.js"] + Entries

  /** `output.filename`: the bundle path webpack writes a chunk to. */
  function ChunkFilename(name: string): string
  {
    if name == "main" then name + ".bundle.js"
    else "src/" + name + "/" + name + ".bundle.js"
  }

  /** The `filename` given to the HtmlWebpackPlugin instance made for entry `e`. */
  function HtmlFilename(e: string): string
  {
    "src/" + e + "/" + e + ".html"
  }

  /** The file name of the HTML page generated for the root (`index.html`). */
  const IndexHtml: string := "index.html"

  /** `Object.keys(entries).map(...)`: the set of per-entry HTML pages. */
  function HtmlFilenames(keys: set<string>): set<string>
  {
    set e | e in keys :: HtmlFilename(e)
  }

  /** Every HTML page the build writes: the root page and one per entry. */
  function HtmlOutputs(keys: set<string>): set<string>
  {
    {IndexHtml} + HtmlFilenames(keys)
  }

  /** One `historyApiFallback` rewrite: a request path equal to `from` is served `to`. */
  datatype RewriteRule = RewriteRule(from: string, to: string)

  /** The rewrite table; each `from` is an anchored literal pattern (`^\/name$`). */
  const FallbackRules: seq<RewriteRule> := [
    RewriteRule("/santorini", "/src/santorini/santorini.html"),
    RewriteRule("/mykonos", "/src/mykonos/mykonos.html")
  ]

  /**
   The rewrite table: the first rule whose pattern matches `path` decides; `None` means
   that no rule of the table matches.
   */
  function FallbackRewrite(rules: seq<RewriteRule>, path: string): Option<string>
    decreases |rules|
  {
    if |rules| == 0 then None
    else if rules[0].from == path then Some(rules[0].to)
    else FallbackRewrite(rules[1..], path)
  }

  /**
   A rewrite happens exactly when some rule matches, and its target is that of the
   first matching rule.
   */
  lemma {:induction false} FallbackRewriteFirstMatch(rules: seq<RewriteRule>, path: string)
    ensures FallbackRewrite(rules, path).Some? <==> exists i :: 0 <= i < |rules| && rules[i].from == path
    ensures FallbackRewrite(rules, path).Some? ==>
      exists i :: 0 <= i < |rules| && rules[i].from == path && rules[i].to == FallbackRewrite(rules, path).value
        && forall j :: 0 <= j < i ==> rules[j].from != path
    decreases |rules|
  {
    if |rules| > 0 && rules[0].from != path {
      FallbackRewriteFirstMatch(rules[1..], path);
      assert forall i :: 0 <= i < |rules| - 1 ==> rules[1..][i] == rules[i + 1];
      if FallbackRewrite(rules, path).Some? {
        var i :| 0 <= i < |rules| - 1 && rules[1..][i].from == path && rules[1..][i].to == FallbackRewrite(rules, path).value
          && forall j :: 0 <= j < i ==> rules[1..][j].from != path;
        assert rules[i + 1].from == path;
        assert forall j :: 0 <= j < i + 1 ==> rules[j].from != path by {
          forall j | 0 <= j < i + 1 ensures rules[j].from != path {
            if j > 0 { assert rules[j] == rules[1..][j - 1]; }
          }
        }
      } else {
        forall i | 0 <= i < |rules| ensures rules[i].from != path {
          if i > 0 { assert rules[i] == rules[1..][i - 1]; }
        }
      }
    }
  }

  /** No two chunks are written to the same bundle file. */
  lemma ChunkFilenameInjective(a: string, b: string)
    requires ChunkFilename(a) == ChunkFilename(b)
    ensures a == b
  {
    var p := ChunkFilename(a);
    if a != "main" && b != "main" {
      assert |p| == 2 * |a| + 15 == 2 * |b| + 15;
      assert p[4..4 + |a|] == a;
      assert p[4..4 + |b|] == b;
    }
  }

  /** The `main` bundle is a single piece (top level); any other chunk's sits in `src/<n>/`. */
  lemma ChunkFilenamePieces(n: string)
    requires SlashFree(n)
    ensures Split(ChunkFilename(n)) ==
      if n == "main" then [ChunkFilename(n)] else ["src", n, n + ".bundle.js"]
  {
    var suffix := ".bundle.js";
    assert SlashFree(suffix) by {
      assert forall k :: 0 <= k < |suffix| ==> suffix[k] != '/';
    }
    assert SlashFree(n + suffix);
    if n == "main" {
      SplitSlashFree(n + suffix);
    } else {
      SplitThree("src", n, n + suffix);
      assert ChunkFilename(n) == "src" + "/" + n + "/" + (n + suffix);
    }
  }

  /** Every entry's HTML page sits in `src/<e>/` and is named after the entry. */
  lemma HtmlFilenamePieces(e: string)
    requires SlashFree(e)
    ensures Split(HtmlFilename(e)) == ["src", e, e + ".html"]
  {
    var suffix := ".html";
    assert SlashFree(suffix) by {
      assert forall k :: 0 <= k < |suffix| ==> suffix[k] != '/';
    }
    assert SlashFree(e + suffix);
    SplitThree("src", e, e + ".html");
    assert HtmlFilename(e) == "src" + "/" + e + "/" + (e + ".html");
  }

  /** Two entries never share an HTML page. */
  lemma HtmlFilenameInjective(a: string, b: string)
    requires HtmlFilename(a) == HtmlFilename(b)
    ensures a == b
  {
    var p := HtmlFilename(a);
    assert |p| == 2 * |a| + 10 == 2 * |b| + 10;
    assert p[4..4 + |a|] == a;
    assert p[4..4 + |b|] == b;
  }

  /** There is exactly one generated page per entry. */
  lemma {:induction false} HtmlFilenamesCount(keys: set<string>)
    ensures |HtmlFilenames(keys)| == |keys|
    decreases |keys|
  {
    if keys != {} {
      var x :| x in keys;
      var rest := keys - {x};
      HtmlFilenamesCount(rest);
      assert HtmlFilenames(keys) == HtmlFilenames(rest) + {HtmlFilename(x)};
      if HtmlFilename(x) in HtmlFilenames(rest) {
        var y :| y in rest && HtmlFilename(y) == HtmlFilename(x);
        HtmlFilenameInjective(x, y);
      }
    }
  }

  /** The root page is not one of the entry pages, so the build writes |keys| + 1 pages. */
  lemma HtmlOutputsCount(keys: set<string>)
    ensures IndexHtml !in HtmlFilenames(keys)
    ensures |HtmlOutputs(keys)| == |keys| + 1
  {
    assert forall e :: HtmlFilename(e)[0] == 's';
    assert IndexHtml[0] == 'i';
    HtmlFilenamesCount(keys);
  }

  /** A bundle never overwrites an HTML page: one ends in `s`, the other in `l`. */
  lemma BundlesAreNotPages(n: string, e: string)
    ensures ChunkFilename(n) != HtmlFilename(e)
    ensures ChunkFilename(n) != IndexHtml
  {
    var c := ChunkFilename(n);
    var h := HtmlFilename(e);
    assert c[|c| - 1] == 's';
    assert h[|h| - 1] == 'l';
    assert IndexHtml[|IndexHtml| - 1] == 'l';
  }
}
