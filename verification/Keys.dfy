/**
  The names a cached object goes by: the request a path is read as, the file it is cached in, the query sent upstream,
  and, on the second proxy, the key in the object store.
 */
module Keys {
  import opened Options

  // ---------- Strings ----------

  function Split(s: string, separator: char): (parts: seq<string>)
    ensures |parts| >= 1
  {
    if s == "" then [""]
    else
      var rest := Split(s[1..], separator);
      if s[0] == separator then [""] + rest else [[s[0]] + rest[0]] + rest[1..]
  }

  function TrimLeft(s: string): string {
    if s != "" && s[0] == '/' then TrimLeft(s[1..]) else s
  }

  function TrimRight(s: string): string {
    if s != "" && s[|s| - 1] == '/' then TrimRight(s[..|s| - 1]) else s
  }

  function ReplaceSlashes(s: string): string {
    if s == "" then "" else (if s[0] == '/' then "__" else [s[0]]) + ReplaceSlashes(s[1..])
  }

  function Slashes(k: nat): string {
    if k == 0 then "" else Slashes(k - 1) + "/"
  }

  predicate Without(s: string, ch: char) {
    forall i | 0 <= i < |s| :: s[i] != ch
  }

  // ---------- Requests ----------

  datatype ProxyRequest = ProxyRequest(repo: string, tpe: string, digest: string)

  function FileName(r: ProxyRequest): string {
    r.tpe + "__" + r.digest
  }

  /** The query sent upstream puts the type before the repository. */
  function QueryUri(upstream: string, r: ProxyRequest): string {
    TrimRight(upstream) + "/" + r.tpe + "/repo=" + r.repo + "/" + r.digest
  }

  function StoreKey(prefix: string, r: ProxyRequest): string {
    prefix + "/" + r.tpe + "/repo_" + r.repo + "/" + r.digest
  }

  /** How a path is read; absent where the code indexes past the end and panics. */
  function ReadPath(uriPath: string): Option<ProxyRequest> {
    var path := TrimRight(TrimLeft(uriPath));
    var split := Split(path, '/');
    var elements := if "bazel-cache" <= split[0] then split[..|split| - 1] else split;
    if |elements| == 0 then None
    else if "repo=" <= elements[0] then
      var parts := Split(elements[0], '=');
      if |parts| >= 2 && |elements| >= 3 then Some(ProxyRequest(parts[1], elements[1], elements[2])) else None
    else if |elements| == 2 && (elements[0] == "ac" || elements[0] == "cas") then
      Some(ProxyRequest("unknown", elements[0], elements[1]))
    else if path == "/" then
      Some(ProxyRequest("unknown", "unknown", "index.html"))
    else
      Some(ProxyRequest("unknown", "unknown", ReplaceSlashes(path)))
  }

  /** One segment of the path of a URI. */
  predicate Segment(s: string) {
    Without(s, '/') && Without(s, '?') && Without(s, '#')
  }

  /** The requests Bazel makes: two types, and a repository and a digest that were read from a path. */
  predicate WellFormed(r: ProxyRequest) {
    (r.tpe == "ac" || r.tpe == "cas") && Segment(r.repo) && Segment(r.digest)
  }

  /** A digest that cannot be mistaken for the end of another one, as no hexadecimal digest can. */
  predicate Unambiguous(digest: string) {
    && (forall i | 0 <= i < |digest| - 1 :: digest[i] != '_' || digest[i + 1] != '_')
    && (digest != "" ==> digest[0] != '_')
  }

  // ---------- Lemmas about strings ----------

  lemma {:induction false} SplitWithout(s: string, separator: char)
    requires Without(s, separator)
    ensures Split(s, separator) == [s]
  {
    if s != "" {
      SplitWithout(s[1..], separator);
      assert [s[0]] + s[1..] == s;
    }
  }

  lemma {:induction false} SplitFirst(a: string, separator: char, b: string)
    requires Without(a, separator)
    ensures Split(a + [separator] + b, separator) == [a] + Split(b, separator)
  {
    var s := a + [separator] + b;
    if a == "" {
      assert s[1..] == b;
    } else {
      SplitFirst(a[1..], separator, b);
      assert s[1..] == a[1..] + [separator] + b;
      assert [a[0]] + a[1..] == a;
    }
  }

  lemma {:induction false} ReplaceConcat(a: string, b: string)
    ensures ReplaceSlashes(a + b) == ReplaceSlashes(a) + ReplaceSlashes(b)
  {
    if a == "" {
      assert a + b == b;
    } else {
      assert (a + b)[1..] == a[1..] + b;
      ReplaceConcat(a[1..], b);
    }
  }

  lemma {:induction false} ReplaceWithout(s: string)
    requires Without(s, '/')
    ensures ReplaceSlashes(s) == s
  {
    if s != "" {
      ReplaceWithout(s[1..]);
    }
  }

  lemma {:induction false} TrimSlashes(base: string, k: nat)
    requires base != "" && base[|base| - 1] != '/'
    ensures TrimRight(base + Slashes(k)) == base
  {
    var s := base + Slashes(k);
    if k == 0 {
      assert s == base;
    } else {
      assert s[..|s| - 1] == base + Slashes(k - 1);
      TrimSlashes(base, k - 1);
    }
  }

  /** `longer` is `shorter` with one underscore before it, or with anything that ends in two. */
  predicate LedUpTo(shorter: string, longer: string) {
    && |shorter| < |longer|
    && var lead := |longer| - |shorter|;
       && longer[lead..] == shorter
       && longer[lead - 1] == '_'
       && (2 <= lead ==> longer[lead - 2] == '_')
  }

  /** If two joined names agree, the longer digest is the shorter one, led up to by underscores. */
  lemma JoinedNamesCollide(a1: string, b1: string, a2: string, b2: string)
    requires a1 + "__" + b1 == a2 + "__" + b2 && |b1| < |b2|
    ensures LedUpTo(b1, b2)
  {
    var s := a1 + "__" + b1;
    var lead := |b2| - |b1|;
    assert b2 == s[|s| - |b2|..] && b1 == s[|s| - |b1|..];
    assert b2[lead..] == b1;
    assert s[|a1|] == '_' && s[|a1| + 1] == '_';
    assert b2[lead - 1] == s[|a1| + 1];
    if 2 <= lead {
      assert b2[lead - 2] == s[|a1|];
    }
  }

  lemma UnambiguousIsLedUpToNothing(shorter: string, longer: string)
    requires LedUpTo(shorter, longer)
    ensures !Unambiguous(longer)
  {
    var lead := |longer| - |shorter|;
    if lead == 1 {
      assert longer[0] == '_';
    } else {
      assert longer[lead - 2] == '_' && longer[lead - 1] == '_';
    }
  }

  /** The last separator can be found from the right if neither end can be mistaken for part of the other. */
  lemma LastSeparatorUnique(a1: string, b1: string, a2: string, b2: string)
    requires Unambiguous(b1) && Unambiguous(b2)
    ensures a1 + "__" + b1 == a2 + "__" + b2 <==> a1 == a2 && b1 == b2
  {
    if a1 + "__" + b1 == a2 + "__" + b2 {
      if |b1| < |b2| {
        JoinedNamesCollide(a1, b1, a2, b2);
        UnambiguousIsLedUpToNothing(b1, b2);
      } else if |b2| < |b1| {
        JoinedNamesCollide(a2, b2, a1, b1);
        UnambiguousIsLedUpToNothing(b2, b1);
      } else {
        SameEndSameStart(a1 + "__", b1, a2 + "__", b2);
        SameEndSameStart(a1, "__", a2, "__");
      }
    }
  }

  lemma SameEndSameStart(a1: string, b1: string, a2: string, b2: string)
    requires a1 + b1 == a2 + b2 && (|a1| == |a2| || |b1| == |b2|)
    ensures a1 == a2 && b1 == b2
  {
    var s := a1 + b1;
    assert |a1| == |a2|;
    assert a1 == s[..|a1|] && a2 == s[..|a2|] && b1 == s[|a1|..] && b2 == s[|a2|..];
  }

  // ---------- First hop ----------

  lemma TrimOneSlash(path: string)
    requires path != "" && path[0] != '/' && path[|path| - 1] != '/'
    ensures TrimRight(TrimLeft("/" + path)) == path
  {
    assert ("/" + path)[1..] == path;
  }

  /** A path that names repository, type and digest is read as just these. */
  lemma ReadsRepositoryForm(repo: string, tpe: string, digest: string)
    requires Without(repo, '/') && Without(repo, '=') && Without(tpe, '/') && Without(digest, '/') && digest != ""
    ensures ReadPath("/repo=" + repo + "/" + tpe + "/" + digest) == Some(ProxyRequest(repo, tpe, digest))
  {
    hide Split, TrimLeft, TrimRight, ReplaceSlashes;
    var first := "repo=" + repo;
    var path := first + "/" + tpe + "/" + digest;
    assert "/repo=" + repo + "/" + tpe + "/" + digest == "/" + path;
    assert path[0] == 'r' && path[|path| - 1] == digest[|digest| - 1];
    TrimOneSlash(path);
    assert path == first + ['/'] + (tpe + "/" + digest);
    SplitFirst(first, '/', tpe + "/" + digest);
    assert tpe + "/" + digest == tpe + ['/'] + digest;
    SplitFirst(tpe, '/', digest);
    SplitWithout(digest, '/');
    assert Split(path, '/') == [first, tpe, digest];
    assert first == "repo" + ['='] + repo;
    SplitFirst("repo", '=', repo);
    SplitWithout(repo, '=');
    assert first[0] == 'r' && "bazel-cache"[0] == 'b';
  }

  // ---------- Any path ----------

  function Join(segments: seq<string>, separator: string): string {
    if segments == [] then ""
    else if |segments| == 1 then segments[0]
    else segments[0] + separator + Join(segments[1..], separator)
  }

  /** The segments of a path without the slashes around it. */
  predicate Segments(segments: seq<string>) {
    && segments != [] && segments[0] != "" && segments[|segments| - 1] != ""
    && forall s <- segments :: Without(s, '/')
  }

  lemma {:induction false} SplitOfJoin(segments: seq<string>)
    requires segments != [] && forall s <- segments :: Without(s, '/')
    ensures Split(Join(segments, "/"), '/') == segments
  {
    if |segments| == 1 {
      SplitWithout(segments[0], '/');
    } else {
      SplitOfJoin(segments[1..]);
      SplitFirst(segments[0], '/', Join(segments[1..], "/"));
      assert Join(segments, "/") == segments[0] + ['/'] + Join(segments[1..], "/");
    }
  }

  lemma {:induction false} ReplaceOfJoin(segments: seq<string>)
    requires forall s <- segments :: Without(s, '/')
    ensures ReplaceSlashes(Join(segments, "/")) == Join(segments, "__")
  {
    if segments != [] {
      ReplaceWithout(segments[0]);
      if |segments| > 1 {
        ReplaceOfJoin(segments[1..]);
        var rest := Join(segments[1..], "/");
        ReplaceConcat(segments[0] + "/", rest);
        ReplaceConcat(segments[0], "/");
        assert ReplaceSlashes("/") == "__";
      }
    }
  }

  lemma {:induction false} JoinEnds(segments: seq<string>)
    requires Segments(segments)
    ensures var path := Join(segments, "/");
      path != "" && path[0] == segments[0][0] && path[0] != '/' && path[|path| - 1] != '/'
  {
    var last := segments[|segments| - 1];
    LastOfJoin(segments);
    assert segments[0] in segments && last in segments;
  }

  lemma {:induction false} LastOfJoin(segments: seq<string>)
    requires segments != [] && segments[|segments| - 1] != ""
    ensures var path, last := Join(segments, "/"), segments[|segments| - 1];
      path != "" && path[|path| - 1] == last[|last| - 1]
  {
    if |segments| > 1 {
      LastOfJoin(segments[1..]);
    }
  }

  lemma {:induction false} TrimLeftSlashes(j: nat, s: string)
    requires s != "" && s[0] != '/'
    ensures TrimLeft(Slashes(j) + s) == s
  {
    if j != 0 {
      TrimLeftSlashes(j - 1, s);
      SlashesBothWays(j - 1);
      assert (Slashes(j) + s)[1..] == Slashes(j - 1) + s;
    }
  }

  lemma {:induction false} SlashesBothWays(j: nat)
    ensures Slashes(j) + "/" == "/" + Slashes(j)
  {
    if j != 0 {
      SlashesBothWays(j - 1);
      calc {
        Slashes(j) + "/";
        (Slashes(j - 1) + "/") + "/";
        ("/" + Slashes(j - 1)) + "/";
        "/" + (Slashes(j - 1) + "/");
      }
    }
  }

  /** The text up to the next `=`. */
  function UpToEquals(s: string): string {
    if s == "" || s[0] == '=' then "" else [s[0]] + UpToEquals(s[1..])
  }

  lemma {:induction false} SplitAtEquals(s: string)
    ensures Split(s, '=')[0] == UpToEquals(s)
  {
    if s != "" {
      SplitAtEquals(s[1..]);
    }
  }

  /**
    How any path is read, by its segments, whatever slashes are around it. The forms are `repo=R/T/D` with anything
    after it, `ac/D` and `cas/D`; any other path names itself, with its slashes replaced. Reading panics on a repository
    without type and digest, and on a single segment that begins with `bazel-cache`.
   */
  lemma PathsAreReadExactly(j: nat, k: nat, segments: seq<string>)
    requires Segments(segments)
    ensures ReadPath(Slashes(j) + Join(segments, "/") + Slashes(k))
         == if "bazel-cache" <= segments[0] && |segments| == 1 then None
            else if "repo=" <= segments[0] then
              if |segments| < 3 then None
              else Some(ProxyRequest(UpToEquals(segments[0][5..]), segments[1], segments[2]))
            else if |segments| == 2 && (segments[0] == "ac" || segments[0] == "cas") then
              Some(ProxyRequest("unknown", segments[0], segments[1]))
            else
              Some(ProxyRequest("unknown", "unknown", Join(segments, "__")))
  {
    hide Split, TrimLeft, TrimRight, ReplaceSlashes, Join, Slashes;
    var path := Join(segments, "/");
    JoinEnds(segments);
    TrimLeftSlashes(j, path + Slashes(k));
    assert Slashes(j) + path + Slashes(k) == Slashes(j) + (path + Slashes(k));
    TrimSlashes(path, k);
    SplitOfJoin(segments);
    ReplaceOfJoin(segments);
    if "bazel-cache" <= segments[0] {
      assert segments[0][0] == 'b' && "repo="[0] == 'r' && "ac"[0] == 'a' && "cas"[0] == 'c';
    }
    if "repo=" <= segments[0] {
      var rest := segments[0][5..];
      assert segments[0] == "repo" + ['='] + rest;
      SplitFirst("repo", '=', rest);
      SplitAtEquals(rest);
    }
  }

  lemma {:induction false} JoinOfSplit(s: string)
    ensures Join(Split(s, '/'), "/") == s
  {
    if s != "" {
      JoinOfSplit(s[1..]);
      var rest := Split(s[1..], '/');
      if s[0] == '/' {
        assert ([""] + rest)[1..] == rest;
      } else {
        assert ([[s[0]] + rest[0]] + rest[1..])[1..] == rest[1..];
        assert [s[0]] + s[1..] == s;
      }
    }
  }

  lemma {:induction false} TrimmedLeft(s: string) returns (j: nat)
    ensures s == Slashes(j) + TrimLeft(s) && (TrimLeft(s) != "" ==> TrimLeft(s)[0] != '/')
  {
    j := 0;
    if s != "" && s[0] == '/' {
      var i := TrimmedLeft(s[1..]);
      j := i + 1;
      SlashesBothWays(i);
      assert s == "/" + s[1..];
    }
  }

  lemma {:induction false} TrimmedRight(s: string) returns (k: nat)
    ensures s == TrimRight(s) + Slashes(k) && TrimRight(s) <= s
    ensures TrimRight(s) != "" ==> TrimRight(s)[|TrimRight(s)| - 1] != '/'
  {
    k := 0;
    if s != "" && s[|s| - 1] == '/' {
      var i := TrimmedRight(s[..|s| - 1]);
      k := i + 1;
      assert s == s[..|s| - 1] + "/";
    }
  }

  /** There are no other paths than these and rows of slashes. */
  lemma EveryPathHasSegments(path: string) returns (j: nat, k: nat, segments: seq<string>)
    ensures path == Slashes(j) || (Segments(segments) && path == Slashes(j) + Join(segments, "/") + Slashes(k))
  {
    hide Slashes, Split, TrimLeft, TrimRight;
    j := TrimmedLeft(path);
    var rest := TrimLeft(path);
    k := TrimmedRight(rest);
    var trimmed := TrimRight(rest);
    segments := Split(trimmed, '/');
    JoinOfSplit(trimmed);
    PartsAreWithout(trimmed, '/', '/');
    if rest == "" {
      assert path == Slashes(j);
    } else {
      assert trimmed != "" by { TrimKeepsFirst(rest); }
      EndsOfSplit(trimmed);
    }
  }

  lemma {:induction false} TrimKeepsFirst(s: string)
    requires s != "" && s[0] != '/'
    ensures TrimRight(s) != "" && TrimRight(s)[0] == s[0]
  {
    if s[|s| - 1] == '/' {
      TrimKeepsFirst(s[..|s| - 1]);
    }
  }

  lemma EndsOfSplit(s: string)
    requires s != "" && s[0] != '/' && s[|s| - 1] != '/'
    ensures var parts := Split(s, '/'); parts[0] != "" && parts[|parts| - 1] != ""
  {
    LastOfSplit(s);
  }

  lemma {:induction false} LastOfSplit(s: string)
    requires s != "" && s[|s| - 1] != '/'
    ensures var parts := Split(s, '/'); parts[|parts| - 1] != ""
  {
    if |s| > 1 {
      LastOfSplit(s[1..]);
    }
  }

  /** A path of slashes only names the root. */
  lemma SlashesAreTheRoot(j: nat)
    ensures ReadPath(Slashes(j)) == Some(ProxyRequest("unknown", "unknown", ""))
  {
    hide Slashes;
    SlashesTrimmed(j);
    assert Split("", '/') == [""];
    assert "bazel-cache" != "" && |"repo="| == 5;
  }

  lemma {:induction false} SlashesTrimmed(j: nat)
    ensures TrimLeft(Slashes(j)) == ""
  {
    if j != 0 {
      SlashesBothWays(j - 1);
      assert Slashes(j)[1..] == Slashes(j - 1);
      SlashesTrimmed(j - 1);
    }
  }

  // ---------- Requests that were read from a path ----------

  /** The parts hold no separator, and no character that the whole does not hold. */
  lemma {:induction false} PartsAreWithout(s: string, separator: char, ch: char)
    ensures forall part <- Split(s, separator) :: Without(part, separator) && (Without(s, ch) ==> Without(part, ch))
  {
    if s != "" {
      PartsAreWithout(s[1..], separator, ch);
      assert Without(s, ch) ==> Without(s[1..], ch);
      var rest := Split(s[1..], separator);
      assert rest[0] in rest;
      assert forall part <- rest[1..] :: part in rest;
    }
  }

  lemma {:induction false} ReplacedAreWithout(s: string)
    ensures Without(ReplaceSlashes(s), '/')
  {
    if s != "" {
      ReplacedAreWithout(s[1..]);
    }
  }

  /** Whatever path a request is read from, its parts hold no slashes. */
  lemma ReadRequestsHoldNoSlashes(path: string)
    requires ReadPath(path).Some?
    ensures var r := ReadPath(path).value; Without(r.repo, '/') && Without(r.tpe, '/') && Without(r.digest, '/')
  {
    hide Split, ReplaceSlashes, TrimLeft, TrimRight;
    var trimmed := TrimRight(TrimLeft(path));
    var split := Split(trimmed, '/');
    PartsAreWithout(trimmed, '/', '/');
    assert forall part <- split[..|split| - 1] :: part in split;
    var first := split[0];
    PartsAreWithout(first, '=', '/');
    ReplacedAreWithout(trimmed);
  }

  /** Requests that differ in anything, the repository included, have different keys in the object store. */
  lemma StoreKeysAreInjective(prefix: string, path: string, other: string)
    requires ReadPath(path).Some? && ReadPath(other).Some?
    ensures var r, q := ReadPath(path).value, ReadPath(other).value;
      StoreKey(prefix, r) == StoreKey(prefix, q) <==> r == q
  {
    hide ReadPath;
    ReadRequestsHoldNoSlashes(path);
    ReadRequestsHoldNoSlashes(other);
    var r, q := ReadPath(path).value, ReadPath(other).value;
    if StoreKey(prefix, r) == StoreKey(prefix, q) {
      StoreKeyIsSplit(prefix, r);
      StoreKeyIsSplit(prefix, q);
      assert r.repo == ("repo_" + r.repo)[5..] && q.repo == ("repo_" + q.repo)[5..];
    }
  }

  lemma StoreKeyIsSplit(prefix: string, r: ProxyRequest)
    requires Without(r.repo, '/') && Without(r.tpe, '/') && Without(r.digest, '/')
    ensures |StoreKey(prefix, r)| > |prefix|
    ensures Split(StoreKey(prefix, r)[|prefix| + 1..], '/') == [r.tpe, "repo_" + r.repo, r.digest]
  {
    var repo := "repo_" + r.repo;
    assert StoreKey(prefix, r)[|prefix| + 1..] == r.tpe + ['/'] + (repo + ['/'] + r.digest);
    SplitFirst(r.tpe, '/', repo + ['/'] + r.digest);
    SplitFirst(repo, '/', r.digest);
    SplitWithout(r.digest, '/');
  }

  // ---------- Second hop ----------

  /** The path of the query when the upstream address has no path of its own, however many slashes it ends in. */
  function QueryPath(base: string, k: nat, r: ProxyRequest): string
    requires base != "" && base[|base| - 1] != '/'
  {
    TrimSlashes(base, k);
    QueryUri(base + Slashes(k), r)[|base|..]
  }

  /** What the second proxy makes of the query: it does not recognise the type, which comes before the repository. */
  function AsReadUpstream(r: ProxyRequest): ProxyRequest {
    if r.digest == "" then ProxyRequest("unknown", r.tpe, "repo=" + r.repo)
    else ProxyRequest("unknown", "unknown", r.tpe + "__repo=" + r.repo + "__" + r.digest)
  }

  lemma SplitQuery(tpe: string, repo: string, digest: string)
    requires Without(tpe, '/') && Without(repo, '/') && Without(digest, '/')
    ensures Split(tpe + "/repo=" + repo + "/" + digest, '/') == [tpe, "repo=" + repo, digest]
    ensures Split(tpe + "/repo=" + repo, '/') == [tpe, "repo=" + repo]
  {
    hide Split;
    var second := "repo=" + repo;
    assert tpe + "/repo=" + repo + "/" + digest == tpe + ['/'] + (second + ['/'] + digest);
    assert tpe + "/repo=" + repo == tpe + ['/'] + second;
    SplitFirst(tpe, '/', second + ['/'] + digest);
    SplitFirst(second, '/', digest);
    SplitWithout(digest, '/');
    SplitFirst(tpe, '/', second);
    SplitWithout(second, '/');
  }

  lemma ReplaceSlash()
    ensures ReplaceSlashes("/") == "__"
  {
    assert ReplaceSlashes("/") == "__" + ReplaceSlashes("");
  }

  lemma ReplaceQuery(tpe: string, repo: string, digest: string)
    requires Without(tpe, '/') && Without(repo, '/') && Without(digest, '/')
    ensures ReplaceSlashes(tpe + "/repo=" + repo + "/" + digest) == tpe + "__repo=" + repo + "__" + digest
  {
    hide ReplaceSlashes;
    var second := "repo=" + repo;
    ReplaceSlash();
    assert tpe + "/repo=" + repo + "/" + digest == tpe + ("/" + (second + ("/" + digest)));
    ReplaceConcat(tpe, "/" + (second + ("/" + digest)));
    ReplaceConcat("/", second + ("/" + digest));
    ReplaceConcat(second, "/" + digest);
    ReplaceConcat("/", digest);
    ReplaceWithout(tpe);
    ReplaceWithout(second);
    ReplaceWithout(digest);
  }

  /** Whatever slashes the upstream address ends in, the query is read upstream as `AsReadUpstream` says. */
  lemma SecondHop(base: string, k: nat, r: ProxyRequest)
    requires base != "" && base[|base| - 1] != '/' && WellFormed(r)
    ensures ReadPath(QueryPath(base, k, r)) == Some(AsReadUpstream(r))
  {
    hide Split, ReplaceSlashes;
    TrimSlashes(base, k);
    var body := r.tpe + "/repo=" + r.repo;
    var full := body + "/" + r.digest;
    assert QueryPath(base, k, r) == "/" + full;
    assert ("/" + full)[1..] == full && full[0] == r.tpe[0];
    assert TrimLeft("/" + full) == full;
    SplitQuery(r.tpe, r.repo, r.digest);
    ReplaceQuery(r.tpe, r.repo, r.digest);
    assert r.tpe[0] == 'a' || r.tpe[0] == 'c';
    assert "bazel-cache"[0] == 'b' && "repo="[0] == 'r';
    if r.digest == "" {
      assert full[..|full| - 1] == body;
      assert body[|body| - 1] != '/';
      assert TrimRight(full) == body;
    } else {
      assert full[|full| - 1] == r.digest[|r.digest| - 1];
      assert TrimRight(full) == full;
      assert full[0] != '/';
    }
  }

  /** The part of a name that the second proxy makes up from repository and digest. */
  function Joined(r: ProxyRequest): string {
    r.repo + "__" + r.digest
  }

  /** Whether two requests get one name on the second proxy. */
  predicate ShareName(r: ProxyRequest, q: ProxyRequest) {
    r.tpe == q.tpe && Joined(r) == Joined(q) && (r.digest == "" <==> q.digest == "")
  }

  lemma UpstreamNamesCollideExactly(r: ProxyRequest, q: ProxyRequest)
    requires WellFormed(r) && WellFormed(q)
    ensures FileName(AsReadUpstream(r)) == FileName(AsReadUpstream(q)) <==> ShareName(r, q)
  {
    UpstreamName(r);
    UpstreamName(q);
    var f, g := FileName(AsReadUpstream(r)), FileName(AsReadUpstream(q));
    if (r.digest == "") != (q.digest == "") {
      assert (f[0] == 'u') != (g[0] == 'u');
    } else {
      var x, y := r.tpe + "__repo=" + Joined(r), q.tpe + "__repo=" + Joined(q);
      if f == g {
        if r.digest == "" {
          assert x == f + "__" == y;
        } else {
          assert x == f[9..] && y == g[9..];
        }
        SameTypeSameRest(r.tpe, Joined(r), q.tpe, Joined(q));
      }
      if x == y && r.digest == "" {
        SameEndSameStart(f, "__", g, "__");
      }
    }
  }

  lemma UpstreamName(r: ProxyRequest)
    ensures var whole := r.tpe + "__repo=" + Joined(r);
      if r.digest == "" then FileName(AsReadUpstream(r)) + "__" == whole
      else FileName(AsReadUpstream(r)) == "unknown__" + whole
  {
    var whole := r.tpe + "__repo=" + Joined(r);
    assert whole == r.tpe + "__repo=" + r.repo + "__" + r.digest;
    if r.digest == "" {
      assert whole == r.tpe + "__" + ("repo=" + r.repo) + "__";
    }
  }

  lemma SameTypeSameRest(t1: string, r1: string, t2: string, r2: string)
    requires (t1 == "ac" || t1 == "cas") && (t2 == "ac" || t2 == "cas")
    requires t1 + "__repo=" + r1 == t2 + "__repo=" + r2
    ensures t1 == t2 && r1 == r2
  {
    var s1, s2 := t1 + "__repo=" + r1, t2 + "__repo=" + r2;
    assert s1[1] == t1[1] && s2[1] == t2[1];
    assert r1 == s1[|t1| + 7..] && r2 == s2[|t2| + 7..];
  }

  lemma FileNameDeterminesUpstream(r: ProxyRequest, q: ProxyRequest)
    requires WellFormed(r) && WellFormed(q)
    ensures FileName(AsReadUpstream(r)) == FileName(AsReadUpstream(q)) <==> AsReadUpstream(r) == AsReadUpstream(q)
  {
    var x, y := AsReadUpstream(r), AsReadUpstream(q);
    if FileName(x) == FileName(y) {
      assert FileName(x)[1] == x.tpe[1] && FileName(y)[1] == y.tpe[1];
      assert x.digest == FileName(x)[|x.tpe| + 2..] && y.digest == FileName(y)[|y.tpe| + 2..];
    }
  }

  /** What the second proxy reads a request as, when the upstream address ends in `k` slashes. */
  function Upstream(base: string, k: nat, r: ProxyRequest): ProxyRequest
    requires base != "" && base[|base| - 1] != '/' && WellFormed(r)
  {
    SecondHop(base, k, r);
    ReadPath(QueryPath(base, k, r)).value
  }

  /**
    Exactly which requests share a file name, or a key in the object store, on the second proxy: those of one type
    whose repositories and digests make up the same text once they are joined. How many slashes the two upstream
    addresses end in does not matter.
   */
  lemma TwoHopsCollideExactly(base: string, j: nat, k: nat, prefix: string, r: ProxyRequest, q: ProxyRequest)
    requires base != "" && base[|base| - 1] != '/' && WellFormed(r) && WellFormed(q)
    ensures FileName(Upstream(base, j, r)) == FileName(Upstream(base, k, q)) <==> ShareName(r, q)
    ensures StoreKey(prefix, Upstream(base, j, r)) == StoreKey(prefix, Upstream(base, k, q)) <==> ShareName(r, q)
  {
    hide ReadPath, QueryPath, AsReadUpstream, ShareName;
    SecondHop(base, j, r);
    SecondHop(base, k, q);
    UpstreamNamesCollideExactly(r, q);
    FileNameDeterminesUpstream(r, q);
    StoreKeysAreInjective(prefix, QueryPath(base, j, r), QueryPath(base, k, q));
  }

  /**
    Distinct (type, repository, digest) triples keep distinct file names and distinct object-store keys across both
    hops, if no digest begins with an underscore or has two in a row.
   */
  lemma TwoHopsAreInjective(base: string, j: nat, k: nat, prefix: string, r: ProxyRequest, q: ProxyRequest)
    requires base != "" && base[|base| - 1] != '/' && WellFormed(r) && WellFormed(q)
    requires Unambiguous(r.digest) && Unambiguous(q.digest)
    ensures FileName(Upstream(base, j, r)) == FileName(Upstream(base, k, q)) <==> r == q
    ensures StoreKey(prefix, Upstream(base, j, r)) == StoreKey(prefix, Upstream(base, k, q)) <==> r == q
  {
    hide Upstream, FileName, StoreKey;
    TwoHopsCollideExactly(base, j, k, prefix, r, q);
    LastSeparatorUnique(r.repo, r.digest, q.repo, q.digest);
  }

  /**
    The condition on digests cannot be weakened: two of them lead to a collision in some pair of repositories exactly
    if one is the other, led up to by underscores.
   */
  lemma DigestsCollideExactly(tpe: string, shorter: string, longer: string)
    requires (tpe == "ac" || tpe == "cas") && Segment(shorter) && Segment(longer)
    requires shorter != "" && |shorter| < |longer|
    ensures LedUpTo(shorter, longer) <==>
      exists r, q | WellFormed(r) && WellFormed(q) && r.digest == shorter && q.digest == longer && r.tpe == q.tpe == tpe
        :: ShareName(r, q)
  {
    hide WellFormed, Segment, ShareName;
    if LedUpTo(shorter, longer) {
      var r, q := LedUpToCollides(tpe, shorter, longer);
    }
    if r, q :| WellFormed(r) && WellFormed(q) && r.digest == shorter && q.digest == longer
               && r.tpe == q.tpe == tpe && ShareName(r, q) {
      SharedNameIsLedUpTo(r, q);
    }
  }

  lemma SharedNameIsLedUpTo(r: ProxyRequest, q: ProxyRequest)
    requires ShareName(r, q) && |r.digest| < |q.digest|
    ensures LedUpTo(r.digest, q.digest)
  {
    JoinedNamesCollide(r.repo, r.digest, q.repo, q.digest);
  }

  lemma LedUpToCollides(tpe: string, shorter: string, longer: string) returns (r: ProxyRequest, q: ProxyRequest)
    requires (tpe == "ac" || tpe == "cas") && Segment(shorter) && Segment(longer)
    requires shorter != "" && LedUpTo(shorter, longer)
    ensures WellFormed(r) && WellFormed(q) && ShareName(r, q)
    ensures r.digest == shorter && q.digest == longer && r.tpe == q.tpe == tpe
  {
    var start := longer[..|longer| - |shorter|];
    var padded := "__" + start;
    var repo := padded[..|start|];
    r, q := ProxyRequest(repo, tpe, shorter), ProxyRequest("", tpe, longer);
    assert padded[|start|] == '_' && padded[|start| + 1] == '_' by {
      assert padded[|start| + 1] == start[|start| - 1];
      if |start| == 1 {
        assert padded[1] == '_';
      } else {
        assert padded[|start|] == start[|start| - 2];
      }
    }
    assert padded == repo + "__";
    assert longer == start + shorter;
    assert Joined(r) == padded + shorter == Joined(q);
    assert Segment(repo) by {
      forall i | 0 <= i < |repo|
        ensures repo[i] == '_' || (2 <= i && repo[i] == longer[i - 2])
      {
      }
    }
  }

  /** Two requests for different blobs of different repositories that the second proxy keeps under one name. */
  lemma UnderscoresCollide(base: string, j: nat, k: nat, prefix: string)
    requires base != "" && base[|base| - 1] != '/'
    ensures var r, q := ProxyRequest("x", "cas", "y__z"), ProxyRequest("x__y", "cas", "z");
      && WellFormed(r) && WellFormed(q) && r != q
      && FileName(Upstream(base, j, r)) == FileName(Upstream(base, k, q))
      && StoreKey(prefix, Upstream(base, j, r)) == StoreKey(prefix, Upstream(base, k, q))
  {
    hide Upstream, FileName, StoreKey;
    var r, q := ProxyRequest("x", "cas", "y__z"), ProxyRequest("x__y", "cas", "z");
    assert Joined(r) == "x__y__z" == Joined(q);
    TwoHopsCollideExactly(base, j, k, prefix, r, q);
  }

  /**
    The second proxy never gets back the request the first one made, and as it takes the type for "unknown" whenever
    there is a digest, it never reads an action result.
   */
  lemma SecondHopLosesType(base: string, k: nat, r: ProxyRequest)
    requires base != "" && base[|base| - 1] != '/' && WellFormed(r)
    ensures ReadPath(QueryPath(base, k, r)).Some? && ReadPath(QueryPath(base, k, r)) != Some(r)
    ensures r.digest != "" <==> ReadPath(QueryPath(base, k, r)).value.tpe == "unknown"
    ensures r.digest != "" ==> !("ac__" <= FileName(ReadPath(QueryPath(base, k, r)).value))
  {
    SecondHop(base, k, r);
    assert "unknown"[0] == 'u' && r.tpe[0] != 'u';
    if r.digest == "" {
      assert ("repo=" + r.repo)[0] == 'r';
    } else {
      assert FileName(AsReadUpstream(r))[0] == 'u' && "ac__"[0] == 'a';
    }
  }

  /** The prefixes the first proxy tests for tell the two types apart, and names are unique within a repository. */
  lemma FileNamesTellTypes(r: ProxyRequest, q: ProxyRequest)
    requires (r.tpe == "ac" || r.tpe == "cas") && (q.tpe == "ac" || q.tpe == "cas")
    ensures "ac__" <= FileName(r) <==> r.tpe == "ac"
    ensures "cas__" <= FileName(r) <==> r.tpe == "cas"
    ensures FileName(r) == FileName(q) <==> r.tpe == q.tpe && r.digest == q.digest
  {
    assert FileName(r)[0] == r.tpe[0] && FileName(q)[0] == q.tpe[0];
    assert "ac__"[0] == 'a' && "cas__"[0] == 'c';
    assert r.digest == FileName(r)[|r.tpe| + 2..] && q.digest == FileName(q)[|q.tpe| + 2..];
    if r.tpe == "ac" {
      assert "ac__" == FileName(r)[..4];
    } else {
      assert "cas__" == FileName(r)[..5];
    }
  }

  // ---------- Gate files ----------

  const GATE_PREFIX := "enable_cas__"

  /** The file whose presence says that an action result names the blob. */
  function GateFile(digest: string): string {
    GATE_PREFIX + digest
  }

  /** A blob's gate file, and the name under which a look for it goes, are one. */
  lemma GateFileOfBlob(r: ProxyRequest)
    requires r.tpe == "cas"
    ensures GateFile(r.digest) == "enable_" + FileName(r)
  {
  }

  /** Which requests have some gate file as their cached file: those of three kinds of type. */
  lemma GateFilesExactly(r: ProxyRequest)
    ensures GATE_PREFIX <= FileName(r)
       <==> r.tpe == "enable_cas" || r.tpe == "enable_cas_" || GATE_PREFIX <= r.tpe
  {
    var name := FileName(r);
    assert name[|r.tpe|] == '_' && name[|r.tpe| + 1] == '_';
    assert r.tpe == "enable_cas_" ==> name == GATE_PREFIX + ("_" + r.digest);
    assert 12 <= |r.tpe| ==> name[..12] == r.tpe[..12];
    if GATE_PREFIX <= name {
      assert name[..12] == GATE_PREFIX;
      assert forall k | 0 <= k < 10 :: !(GATE_PREFIX[k] == '_' && GATE_PREFIX[k + 1] == '_');
      assert 10 <= |r.tpe|;
      if |r.tpe| < 12 {
        assert r.tpe == GATE_PREFIX[..|r.tpe|];
      }
    }
  }

  /** A request that is read from a path and whose cached file is the gate file of any blob one likes. */
  lemma RequestNamesGateFile(repo: string, digest: string)
    requires Segment(repo) && Without(repo, '=') && Segment(digest) && digest != ""
    ensures var r := ReadPath("/repo=" + repo + "/" + "enable_cas" + "/" + digest);
      r.Some? && FileName(r.value) == GateFile(digest)
  {
    hide ReadPath;
    ReadsRepositoryForm(repo, "enable_cas", digest);
  }

  /** Requests for action results and blobs never do. */
  lemma BlobsAreNotGateFiles(r: ProxyRequest)
    requires r.tpe == "ac" || r.tpe == "cas"
    ensures !(GATE_PREFIX <= FileName(r))
  {
    GateFilesExactly(r);
  }

  /** The prefixes by which the proxy tells its files apart exclude each other. */
  lemma PrefixesAreApart(name: string)
    ensures !("ac__" <= name && "cas__" <= name)
    ensures !("ac__" <= name && GATE_PREFIX <= name)
    ensures !("cas__" <= name && GATE_PREFIX <= name)
  {
    assert "ac__"[0] == 'a' && "cas__"[0] == 'c' && GATE_PREFIX[0] == 'e';
  }
}
