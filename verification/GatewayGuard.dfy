/** gatewayGuard (ipfsnode_gateway.go): which requests reach the gateway handler. */
module GatewayGuard {
  import opened Cids

  datatype Decision =
    | Serve                        // handed to the gateway handler
    | MissingCID                   // 400
    | InvalidCID                   // 400
    | NotPinned                    // 404

  /** Up to the first slash, or all of it. */
  function FirstComponent(s: string): string {
    if s == "" || s[0] == '/' then "" else [s[0]] + FirstComponent(s[1..])
  }

  /** The CID component of a path under /ipfs/. */
  function RootOf(path: string): string
    requires "/ipfs/" <= path
  {
    FirstComponent(path[6..])
  }

  function Guard(path: string, pins: set<string>): Decision {
    if "/ipfs/" <= path then
      var raw := RootOf(path);
      if raw == "" then MissingCID
      else if !ValidCID(raw) then InvalidCID
      else if raw !in pins then NotPinned
      else Serve
    else Serve
  }

  lemma {:induction false} FirstComponentIs(s: string, c: string)
    ensures FirstComponent(s) == c <==>
      c <= s && '/' !in c && (|c| == |s| || s[|c|] == '/')
  {
    if s == "" || s[0] == '/' {
      if c != "" && c <= s { assert c[0] == s[0] && c[0] in c; }
    } else if c == "" {
    } else {
      FirstComponentIs(s[1..], c[1..]);
      assert c == [c[0]] + c[1..] && s == [s[0]] + s[1..];
      if c <= s { assert c[1..] <= s[1..]; }
      if c[1..] <= s[1..] && c[0] == s[0] { assert c <= s; }
    }
  }

  lemma ValidHasNoSlash(c: string)
    requires ValidCID(c)
    ensures '/' !in c
  {
    forall i | 0 <= i < |c| ensures c[i] != '/' {
    }
  }

  /** The path is /ipfs/<c>, alone or followed by a subpath. */
  ghost predicate RootedAt(path: string, c: string) {
    "/ipfs/" + c <= path && (|path| == 6 + |c| || path[6 + |c|] == '/')
  }

  /** For a path rooted at a well-formed CID only membership in the pin set counts. */
  lemma RootDecides(path: string, c: string, pins: set<string>)
    requires ValidCID(c) && RootedAt(path, c)
    ensures "/ipfs/" <= path && RootOf(path) == c
    ensures Guard(path, pins) == if c in pins then Serve else NotPinned
  {
    ValidHasNoSlash(c);
    assert ("/ipfs/" + c)[..6] == "/ipfs/";
    assert path[6..][..|c|] == path[..6 + |c|][6..] == c;
    FirstComponentIs(path[6..], c);
  }

  /** A path under /ipfs/ is rooted at its first component, and only at that if well-formed. */
  lemma RootedAtRoot(path: string)
    requires "/ipfs/" <= path
    ensures RootedAt(path, RootOf(path))
  {
    var raw := RootOf(path);
    FirstComponentIs(path[6..], raw);
    assert path == "/ipfs/" + path[6..];
    assert path[..6 + |raw|] == "/ipfs/" + raw;
  }

  /** Under /ipfs/ a request is served exactly when its root is a well-formed CID in the pin
      set; nothing else under /ipfs/ gets through, and nothing outside it is stopped. */
  lemma ServedIffPinnedRoot(path: string, pins: set<string>)
    ensures Guard(path, pins) == Serve <==>
      ("/ipfs/" <= path ==> exists c :: ValidCID(c) && c in pins && RootedAt(path, c))
  {
    if "/ipfs/" <= path {
      RootedAtRoot(path);
      if c :| ValidCID(c) && c in pins && RootedAt(path, c) {
        RootDecides(path, c, pins);
      }
    }
  }

  /** The three refusals are told apart as the handler's status codes are. */
  lemma Refusals(path: string, pins: set<string>)
    requires "/ipfs/" <= path
    ensures Guard(path, pins) == MissingCID <==> path == "/ipfs/" || "/ipfs//" <= path
    ensures Guard(path, pins) == InvalidCID <==>
      path != "/ipfs/" && !("/ipfs//" <= path) && forall c | RootedAt(path, c) :: !ValidCID(c)
    ensures Guard(path, pins) == NotPinned <==> exists c :: ValidCID(c) && c !in pins && RootedAt(path, c)
  {
    EmptyRoot(path);
    RootedAtRoot(path);
    forall c | ValidCID(c) && RootedAt(path, c)
      ensures RootOf(path) == c && Guard(path, pins) == if c in pins then Serve else NotPinned
    {
      RootDecides(path, c, pins);
    }
    if ValidCID(RootOf(path)) {
      ValidHasNoSlash(RootOf(path));
    }
  }

  lemma EmptyRoot(path: string)
    requires "/ipfs/" <= path
    ensures RootOf(path) == "" <==> path == "/ipfs/" || "/ipfs//" <= path
  {
    assert path == "/ipfs/" + path[6..];
    FirstComponentIs(path[6..], "");
    if "/ipfs//" <= path { assert path[6] == path[..7][6]; }
    if |path| > 6 && path[6] == '/' { assert path[..7] == "/ipfs//"; }
  }
}
