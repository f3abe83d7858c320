/** Which action types need just-in-time approval. */
module JitScope {

  /** `split('.')`: never empty. */
  function Split(s: string): (parts: seq<string>)
    ensures parts != []
  {
    if s == [] then [""]
    else
      var rest := Split(s[1..]);
      if s[0] == '.' then [""] + rest else [[s[0]] + rest[0]] + rest[1..]
  }

  const MCP := "mcp."

  predicate ScopeRequiresJit(jitScopes: seq<string>, actionType: string) {
    || actionType in jitScopes
    || (MCP <= actionType
        && var parts := Split(actionType); |parts| >= 3 && parts[0] + "." + parts[1] + ".*" in jitScopes)
  }

  /** Every tool of the server `slug`. */
  function Tools(slug: string): string { MCP + slug + "." }

  function Wildcard(slug: string): string { Tools(slug) + "*" }

  /** What the scopes mean: a listed action type, or any tool of a server that is listed whole. */
  ghost predicate NeedsApproval(jitScopes: seq<string>, actionType: string) {
    || actionType in jitScopes
    || exists slug :: '.' !in slug && Tools(slug) <= actionType && Wildcard(slug) in jitScopes
  }

  lemma {:induction false} SplitAfter(part: string, rest: string)
    requires '.' !in part
    ensures Split(part + "." + rest) == [part] + Split(rest)
  {
    var s := part + "." + rest;
    if part == [] {
      assert s[1..] == rest;
    } else {
      SplitAfter(part[1..], rest);
      assert s[1..] == part[1..] + "." + rest;
      assert part == [part[0]] + part[1..];
    }
  }

  lemma {:induction false} FirstPart(s: string) returns (rest: string)
    requires |Split(s)| >= 2
    ensures '.' !in Split(s)[0]
    ensures s == Split(s)[0] + "." + rest && Split(rest) == Split(s)[1..]
  {
    if s[0] == '.' {
      rest := s[1..];
    } else {
      rest := FirstPart(s[1..]);
      assert s == [s[0]] + s[1..];
    }
  }

  lemma ToolsOfListedServers(jitScopes: seq<string>, actionType: string, slug: string)
    requires '.' !in slug && Tools(slug) <= actionType && Wildcard(slug) in jitScopes
    ensures ScopeRequiresJit(jitScopes, actionType)
  {
    var tool := actionType[|Tools(slug)|..];
    assert actionType == "mcp" + "." + (slug + "." + tool);
    SplitAfter("mcp", slug + "." + tool);
    SplitAfter(slug, tool);
    assert MCP <= actionType;
    assert "mcp" + "." + slug + ".*" == Wildcard(slug);
  }

  lemma ServerOfTool(actionType: string) returns (slug: string)
    requires MCP <= actionType && |Split(actionType)| >= 3
    ensures '.' !in slug && Tools(slug) <= actionType
    ensures Split(actionType)[0] + "." + Split(actionType)[1] + ".*" == Wildcard(slug)
  {
    var parts := Split(actionType);
    var behind := FirstPart(actionType);
    var tool := FirstPart(behind);
    slug := parts[1];
    assert actionType == "mcp" + "." + actionType[4..];
    SplitAfter("mcp", actionType[4..]);
    assert parts[0] == "mcp" && actionType == Tools(slug) + tool;
    assert "mcp" + "." + slug + ".*" == Wildcard(slug);
  }

  /** Splitting at dots and comparing finds exactly the tools of whole-server scopes, dots in tool
      names included. */
  lemma ScopesMeanWhatTheySay(jitScopes: seq<string>, actionType: string)
    ensures ScopeRequiresJit(jitScopes, actionType) <==> NeedsApproval(jitScopes, actionType)
  {
    forall slug | '.' !in slug && Tools(slug) <= actionType && Wildcard(slug) in jitScopes
      ensures ScopeRequiresJit(jitScopes, actionType)
    {
      ToolsOfListedServers(jitScopes, actionType, slug);
    }
    if ScopeRequiresJit(jitScopes, actionType) && actionType !in jitScopes {
      var slug := ServerOfTool(actionType);
    }
  }

  /** A wildcard whose server name holds a dot covers nothing but itself. */
  lemma DottedServersCoverNoTool(server: string, actionType: string)
    requires '.' in server
    ensures ScopeRequiresJit([Wildcard(server)], actionType) <==> actionType == Wildcard(server)
  {
    ScopesMeanWhatTheySay([Wildcard(server)], actionType);
    forall slug | Wildcard(slug) == Wildcard(server) ensures slug == server {
      assert |Wildcard(slug)| == |Wildcard(server)|;
      assert slug == Wildcard(slug)[4..|Wildcard(slug)| - 2];
      assert server == Wildcard(server)[4..|Wildcard(server)| - 2];
    }
  }
}
