/** The path-rewriting adapter of pragmatic-cases/http/main.go. */
module ServicePath {
  import opened GoStrings

  const ServiceAPrefix := "/servicea/query/"

  /** The rewrite decision: under "/servicea/query/", the first "/servicea/query" becomes "/query". */
  function RewritePath(path: string): (r: string)
    ensures HasPrefix(path, ServiceAPrefix) ==> r == "/query" + path[15..]
    ensures !HasPrefix(path, ServiceAPrefix) ==> r == path
  {
    if HasPrefix(path, ServiceAPrefix) then
      assert OccursAt(path, "/servicea/query", 0);
      ReplaceFirst(path, "/servicea/query", "/query")
    else path
  }

  /** A rewritten path starts with "/query/" and is not rewritten again. */
  lemma RewriteIdempotent(path: string)
    ensures RewritePath(RewritePath(path)) == RewritePath(path)
  {
    var r := RewritePath(path);
    if HasPrefix(path, ServiceAPrefix) {
      assert r[1] == 'q';
      assert !HasPrefix(r, ServiceAPrefix);
    }
  }

  /** "/servicea/query" without the final slash is left alone. */
  lemma NoSlashNoRewrite()
    ensures RewritePath("/servicea/query") == "/servicea/query"
  {
  }

  /** The request to service A in main_test.go is rewritten. */
  lemma RewriteServiceA()
    ensures RewritePath("/servicea/query/123") == "/query/123"
  {
    var p := "/servicea/query/123";
    assert p[..16] == ServiceAPrefix;
    assert p[15..] == "/123";
  }

  /** The request to service B in main_test.go passes through. */
  lemma RewriteServiceB()
    ensures RewritePath("/serviceb/query/123") == "/serviceb/query/123"
  {
    var q := "/serviceb/query/123";
    assert q[..16][8] != ServiceAPrefix[8];
  }

  /** The incoming request; its URL path is rewritten in place. */
  class Request {
    var path: string

    constructor (path: string)
      ensures this.path == path
    {
      this.path := path;
    }
  }

  /**
   * The handler `ModifyPathForServiceA` wraps: rewrite the request's path,
   * then hand the request to the next handler. The next handler is not part
   * of this model; `seen` records the path of each call made to it.
   */
  method ModifyPathForServiceA(r: Request) returns (seen: seq<string>)
    modifies r
    ensures r.path == RewritePath(old(r.path))
    ensures seen == [r.path]
  {
    if HasPrefix(r.path, ServiceAPrefix) {
      assert OccursAt(r.path, "/servicea/query", 0);
      r.path := ReplaceFirst(r.path, "/servicea/query", "/query");
    }
    seen := [r.path];
  }
}
