/**
  The file layout of a git-mode tenant's repository: the paths of its four kinds
  of files, and the parser that leads a path back to what it belongs to.
 */
module RepoLayout {
  import opened Strings
  import opened Wrappers

  datatype Kind = Manifest | Pipeline(slug: string) | Configs | Secrets

  datatype Component = Component(tenant: string, env: string, kind: Kind)

  /** Slugs without slashes; only the pipeline's may be empty. */
  predicate WellFormed(c: Component) {
    && c.tenant != "" && Free(c.tenant, '/') && c.env != "" && Free(c.env, '/')
    && (c.kind.Pipeline? ==> Free(c.kind.slug, '/'))
  }

  /*
   * Printing.
   */

  function StripLeading(s: string): (r: string)
    ensures r != "" ==> r[0] != '/'
    ensures s == "" || s[0] != '/' ==> r == s
  {
    if s != "" && s[0] == '/' then StripLeading(s[1..]) else s
  }

  function StripTrailing(s: string): (r: string)
    ensures r <= s
    ensures Free(s, '/') ==> r == s
  {
    if s != "" && s[|s| - 1] == '/' then StripTrailing(s[..|s| - 1]) else s
  }

  function Strip(s: string): (r: string)
    ensures r != "" ==> r[0] != '/'
    ensures Free(s, '/') ==> r == s
  {
    StripTrailing(StripLeading(s))
  }

  function StripAll(parts: seq<string>): seq<string> {
    if parts == [] then []
    else if Strip(parts[0]) == "" then StripAll(parts[1..])
    else [Strip(parts[0])] + StripAll(parts[1..])
  }

  function JoinPath(parts: seq<string>): string {
    Join(StripAll(parts), "/")
  }

  datatype Layout = Layout(envRoot: string, manifest: string, pipelineDir: string, pipelineFile: string -> string,
                           configsFile: string, secretsFile: string)

  function LayoutFor(prefix: string, tenant: string, env: string): Layout {
    var envRoot := JoinPath([prefix, tenant, env]);
    var pipelineDir := envRoot + "/pipelines";
    Layout(envRoot, envRoot + "/manifest.yaml", pipelineDir, (slug: string) => pipelineDir + "/" + slug + ".yaml",
           envRoot + "/configs/values.yaml", envRoot + "/secrets/values.enc")
  }

  function FileOf(prefix: string, c: Component): string {
    var layout := LayoutFor(prefix, c.tenant, c.env);
    match c.kind
    case Manifest => layout.manifest
    case Pipeline(slug) => layout.pipelineFile(slug)
    case Configs => layout.configsFile
    case Secrets => layout.secretsFile
  }

  /*
   * Parsing.
   */

  function PrefixSegments(prefix: string): seq<string> {
    if Strip(prefix) == "" then [] else Split(Strip(prefix), '/')
  }

  function ParseSegments(segs: seq<string>): Option<Component> {
    if |segs| < 3 then None
    else
      var tenant, env, folder, rest := segs[0], segs[1], segs[2], segs[3..];
      if tenant == "" || env == "" || folder == "" then None
      else if folder == "manifest.yaml" && |rest| == 0 then Some(Component(tenant, env, Manifest))
      else if folder == "pipelines" && |rest| == 1 then
        if EndsWith(rest[0], ".yaml") then Some(Component(tenant, env, Pipeline(rest[0][..|rest[0]| - |".yaml"|])))
        else None
      else if folder == "configs" && Join(rest, "/") == "values.yaml" then Some(Component(tenant, env, Configs))
      else if folder == "secrets" && Join(rest, "/") == "values.enc" then Some(Component(tenant, env, Secrets))
      else None
  }

  predicate EndsWith(s: string, t: string) {
    |s| >= |t| && s[|s| - |t|..] == t
  }

  function Parse(prefix: string, path: string): Option<Component> {
    var segs, head := Split(StripLeading(path), '/'), PrefixSegments(prefix);
    if head <= segs then ParseSegments(segs[|head|..]) else None
  }

  method ParseRepoPath(pathPrefix: string, repoPath: string) returns (found: Option<Component>)
    ensures found == Parse(pathPrefix, repoPath)
  {
    var prefix := Strip(pathPrefix);
    var segs := Split(StripLeading(repoPath), '/');
    if prefix != "" {
      var prefixSegs := Split(prefix, '/');
      var i := 0;
      while i < |prefixSegs|
        invariant 0 <= i <= |prefixSegs| && i <= |segs|
        invariant prefixSegs[..i] == segs[..i]
      {
        if i >= |segs| || segs[i] != prefixSegs[i] {
          assert !(prefixSegs <= segs);
          return None;
        }
        i := i + 1;
      }
      assert prefixSegs <= segs;
      segs := segs[|prefixSegs|..];
    }
    if |segs| < 3 { return None; }
    var tenant, env, folder, rest := segs[0], segs[1], segs[2], segs[3..];
    if tenant == "" || env == "" || folder == "" { return None; }
    if folder == "manifest.yaml" && |rest| == 0 {
      return Some(Component(tenant, env, Manifest));
    }
    if folder == "pipelines" && |rest| == 1 {
      var file := rest[0];
      if !EndsWith(file, ".yaml") { return None; }
      return Some(Component(tenant, env, Pipeline(file[..|file| - |".yaml"|])));
    }
    if folder == "configs" && Join(rest, "/") == "values.yaml" {
      return Some(Component(tenant, env, Configs));
    }
    if folder == "secrets" && Join(rest, "/") == "values.enc" {
      return Some(Component(tenant, env, Secrets));
    }
    found := None;
  }

  /*
   * The parser and the printer.
   */

  /** The segments below the environment's root. */
  function Tail(kind: Kind): seq<string> {
    match kind
    case Manifest => ["manifest.yaml"]
    case Pipeline(slug) => ["pipelines", slug + ".yaml"]
    case Configs => ["configs", "values.yaml"]
    case Secrets => ["secrets", "values.enc"]
  }

  /** The segments that spell a component below the prefix. */
  function Spelled(c: Component): seq<string> {
    [c.tenant, c.env] + Tail(c.kind)
  }

  predicate AllFree(segs: seq<string>) {
    forall s :: s in segs ==> Free(s, '/')
  }

  lemma {:induction false} JoinAppend(a: seq<string>, b: seq<string>)
    requires a != [] && b != []
    ensures Join(a + b, "/") == Join(a, "/") + "/" + Join(b, "/")
  {
    assert (a + b)[1..] == a[1..] + b;
    if |a| == 1 {
      assert a[1..] + b == b;
    } else {
      JoinAppend(a[1..], b);
    }
  }

  /** A list that joins to a name without a slash is that name alone. */
  lemma JoinsToName(rest: seq<string>, name: string)
    requires AllFree(rest) && Free(name, '/') && name != ""
    ensures Join(rest, "/") == name <==> rest == [name]
  {
    if rest != [] && Join(rest, "/") == name {
      SplitJoin(rest, '/');
      SplitJoin([name], '/');
    }
  }

  /** The parser reads exactly the spellings of well-formed components. */
  lemma ParseSegmentsIs(segs: seq<string>, c: Component)
    requires AllFree(segs)
    ensures ParseSegments(segs) == Some(c) <==> WellFormed(c) && segs == Spelled(c)
  {
    if ParseSegments(segs).Some? {
      ParsedIsSpelled(segs);
    }
    if WellFormed(c) && segs == Spelled(c) {
      SpelledParses(c);
    }
  }

  lemma ParsedIsSpelled(segs: seq<string>)
    requires AllFree(segs) && ParseSegments(segs).Some?
    ensures var c := ParseSegments(segs).value; WellFormed(c) && segs == Spelled(c)
    // different components are spelled differently
    ensures forall d :: WellFormed(d) && segs == Spelled(d) ==> d == ParseSegments(segs).value
  {
    var c, rest := ParseSegments(segs).value, segs[3..];
    assert segs[0] in segs && segs[1] in segs;
    assert segs == [segs[0], segs[1], segs[2]] + rest;
    forall s | s in rest ensures Free(s, '/') { assert s in segs; }
    JoinsToName(rest, "values.yaml");
    JoinsToName(rest, "values.enc");
    if c.kind.Pipeline? {
      assert rest[0] == c.kind.slug + ".yaml";
      assert rest[0] in segs;
    }
    forall d | WellFormed(d) && segs == Spelled(d) ensures d == c { SpelledParses(d); }
  }

  lemma SpelledParses(c: Component)
    requires WellFormed(c)
    ensures AllFree(Spelled(c)) && ParseSegments(Spelled(c)) == Some(c)
  {
    var segs := Spelled(c);
    match c.kind
    case Manifest => assert segs[3..] == [];
    case Pipeline(slug) =>
      assert segs[3..] == [slug + ".yaml"];
      assert (slug + ".yaml")[..|slug|] == slug && (slug + ".yaml")[|slug|..] == ".yaml";
    case Configs => assert segs[3..] == ["values.yaml"];
    case Secrets => assert segs[3..] == ["values.enc"];
  }

  lemma EnvRootIs(prefix: string, c: Component)
    requires WellFormed(c)
    ensures LayoutFor(prefix, c.tenant, c.env).envRoot ==
            (if Strip(prefix) == "" then "" else Strip(prefix) + "/") + (c.tenant + "/" + c.env)
  {
    var parts, root := [prefix, c.tenant, c.env], [c.tenant, c.env];
    assert parts[1..] == root && root[1..] == [c.env] && [c.env][1..] == [];
    assert StripAll([c.env]) == [c.env];
    assert StripAll(root) == root;
    assert Join(root, "/") == c.tenant + "/" + c.env;
    assert ([Strip(prefix)] + root)[1..] == root;
  }

  lemma RootIsJoined(prefix: string, c: Component)
    requires WellFormed(c)
    ensures LayoutFor(prefix, c.tenant, c.env).envRoot == Join(PrefixSegments(prefix) + [c.tenant, c.env], "/")
  {
    var head, root := PrefixSegments(prefix), [c.tenant, c.env];
    EnvRootIs(prefix, c);
    assert root[1..] == [c.env];
    assert Join(root, "/") == c.tenant + "/" + c.env;
    if Strip(prefix) == "" {
      assert head + root == root;
    } else {
      JoinAppend(head, root);
      JoinSplit(Strip(prefix), '/');
    }
  }

  /** A file path is the prefix's segments and the component's, joined. */
  lemma FileIsJoined(prefix: string, c: Component)
    requires WellFormed(c)
    ensures FileOf(prefix, c) == Join(PrefixSegments(prefix) + Spelled(c), "/")
  {
    var front, tail := PrefixSegments(prefix) + [c.tenant, c.env], Tail(c.kind);
    RootIsJoined(prefix, c);
    JoinAppend(front, tail);
    FileIsRootAndTail(prefix, c);
    assert front + tail == PrefixSegments(prefix) + Spelled(c);
  }

  /** The part of a file path below the environment's root. */
  function Below(kind: Kind): string {
    match kind
    case Manifest => "/manifest.yaml"
    case Pipeline(slug) => "/pipelines" + ("/" + (slug + ".yaml"))
    case Configs => "/configs/values.yaml"
    case Secrets => "/secrets/values.enc"
  }

  lemma Associate(a: string, b: string, c: string)
    ensures a + b + c == a + (b + c)
  {
  }

  lemma FileIsRootAndBelow(prefix: string, c: Component)
    ensures FileOf(prefix, c) == LayoutFor(prefix, c.tenant, c.env).envRoot + Below(c.kind)
  {
    var root := LayoutFor(prefix, c.tenant, c.env).envRoot;
    if c.kind.Pipeline? {
      var dir, slug := root + "/pipelines", c.kind.slug;
      Associate(dir + "/", slug, ".yaml");
      Associate(dir, "/", slug + ".yaml");
      Associate(root, "/pipelines", "/" + (slug + ".yaml"));
    }
  }

  lemma FileIsRootAndTail(prefix: string, c: Component)
    ensures FileOf(prefix, c) == LayoutFor(prefix, c.tenant, c.env).envRoot + "/" + Join(Tail(c.kind), "/")
  {
    var root := LayoutFor(prefix, c.tenant, c.env).envRoot;
    FileIsRootAndBelow(prefix, c);
    JoinTail(c.kind);
    Associate(root, "/", Join(Tail(c.kind), "/"));
  }

  lemma JoinTwo(a: string, b: string)
    ensures Join([a, b], "/") == a + "/" + b
  {
    assert [a, b][1..] == [b];
  }

  lemma JoinPipeline(slug: string)
    ensures "/" + Join(["pipelines", slug + ".yaml"], "/") == "/pipelines" + ("/" + (slug + ".yaml"))
  {
    var file := slug + ".yaml";
    JoinTwo("pipelines", file);
    Associate("pipelines", "/", file);
    Associate("/", "pipelines", "/" + file);
  }

  lemma JoinConfigs()
    ensures "/" + Join(["configs", "values.yaml"], "/") == "/configs/values.yaml"
  {
    JoinTwo("configs", "values.yaml");
  }

  lemma JoinSecrets()
    ensures "/" + Join(["secrets", "values.enc"], "/") == "/secrets/values.enc"
  {
    JoinTwo("secrets", "values.enc");
  }

  lemma JoinTail(kind: Kind)
    ensures "/" + Join(Tail(kind), "/") == Below(kind)
  {
    match kind
    case Manifest =>
    case Pipeline(slug) => JoinPipeline(slug);
    case Configs => JoinConfigs();
    case Secrets => JoinSecrets();
  }

  lemma FileSplits(prefix: string, c: Component)
    requires WellFormed(c)
    ensures Split(FileOf(prefix, c), '/') == PrefixSegments(prefix) + Spelled(c)
    ensures StripLeading(FileOf(prefix, c)) == FileOf(prefix, c)
  {
    var segs := PrefixSegments(prefix) + Spelled(c);
    SpelledParses(c);
    FileIsJoined(prefix, c);
    SplitJoin(segs, '/');
    NoLeadingSlash(prefix, c);
  }

  lemma NoLeadingSlash(prefix: string, c: Component)
    requires WellFormed(c)
    ensures FileOf(prefix, c) != "" && FileOf(prefix, c)[0] != '/'
  {
    EnvRootIs(prefix, c);
    FileIsRootAndTail(prefix, c);
  }

  /** For every prefix and every path: the parser returns a component if and only
      if the component is well formed and the path, without leading slashes, is
      the one the layout gives it. */
  lemma ParseInvertsLayout(prefix: string, path: string, c: Component)
    ensures Parse(prefix, path) == Some(c) <==> WellFormed(c) && StripLeading(path) == FileOf(prefix, c)
  {
    var stripped, head := StripLeading(path), PrefixSegments(prefix);
    var segs := Split(stripped, '/');
    JoinSplit(stripped, '/');
    if Parse(prefix, path) == Some(c) {
      forall s | s in segs[|head|..] ensures Free(s, '/') { assert s in segs; }
      ParseSegmentsIs(segs[|head|..], c);
      assert segs == head + Spelled(c);
      FileIsJoined(prefix, c);
    }
    if WellFormed(c) && stripped == FileOf(prefix, c) {
      FileSplits(prefix, c);
      SpelledParses(c);
      assert segs[|head|..] == Spelled(c);
    }
  }

  /** So a component's file leads back to it if and only if it is well formed. */
  lemma FileLeadsBackIff(prefix: string, c: Component)
    ensures Parse(prefix, FileOf(prefix, c)) == Some(c) <==> WellFormed(c)
  {
    ParseInvertsLayout(prefix, FileOf(prefix, c), c);
    if WellFormed(c) {
      FileSplits(prefix, c);
    }
  }

  /** Different components have different files. */
  lemma DistinctFiles(prefix: string, c: Component, d: Component)
    requires WellFormed(c) && WellFormed(d) && FileOf(prefix, c) == FileOf(prefix, d)
    ensures c == d
  {
    FileLeadsBackIff(prefix, c);
    FileLeadsBackIff(prefix, d);
  }

  /*
   * The prefix.
   */

  lemma {:induction false} StripLeadingAppend(s: string)
    ensures StripLeading(s + "/") == if StripLeading(s) == "" then "" else StripLeading(s) + "/"
  {
    if s == "" {
      assert s + "/" == "/" && "/"[1..] == "";
      assert StripLeading("/") == StripLeading("");
    } else if s[0] == '/' {
      assert (s + "/")[1..] == s[1..] + "/";
      StripLeadingAppend(s[1..]);
    }
  }

  lemma StripSlash(s: string)
    ensures StripLeading("/" + s) == StripLeading(s) && Strip("/" + s) == Strip(s) && Strip(s + "/") == Strip(s)
  {
    assert ("/" + s)[1..] == s;
    StripLeadingAppend(s);
    var t := StripLeading(s);
    assert (t + "/")[..|t|] == t;
  }

  lemma SamePrefix(a: string, b: string, path: string, c: Component)
    requires Strip(a) == Strip(b)
    ensures FileOf(a, c) == FileOf(b, c) && Parse(a, path) == Parse(b, path)
  {
    var pa, pb := [a, c.tenant, c.env], [b, c.tenant, c.env];
    assert pa[1..] == pb[1..];
    assert StripAll(pa) == StripAll(pb);
    FileIsRootAndBelow(a, c);
    FileIsRootAndBelow(b, c);
  }

  /** Slashes around the prefix and in front of the path make no difference. */
  lemma OuterSlashesIgnored(prefix: string, path: string, c: Component)
    ensures FileOf("/" + prefix, c) == FileOf(prefix + "/", c) == FileOf(prefix, c)
    ensures Parse("/" + prefix, path) == Parse(prefix + "/", path) == Parse(prefix, "/" + path) == Parse(prefix, path)
  {
    StripSlash(prefix);
    StripSlash(path);
    SamePrefix("/" + prefix, prefix, path, c);
    SamePrefix(prefix + "/", prefix, path, c);
  }

  /** The files by name; a prefix without slashes is a directory above them. */
  lemma FilesByName(prefix: string, c: Component)
    requires WellFormed(c) && Free(prefix, '/')
    ensures FileOf(prefix, c) ==
            (if prefix == "" then "" else prefix + "/") + (c.tenant + "/" + c.env) +
            match c.kind
            case Manifest => "/manifest.yaml"
            case Pipeline(slug) => "/pipelines/" + slug + ".yaml"
            case Configs => "/configs/values.yaml"
            case Secrets => "/secrets/values.enc"
  {
    EnvRootIs(prefix, c);
    FileIsRootAndBelow(prefix, c);
    if c.kind.Pipeline? {
      Associate("/pipelines", "/", c.kind.slug + ".yaml");
      Associate("/pipelines/", c.kind.slug, ".yaml");
    }
  }
}
