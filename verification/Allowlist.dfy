/** The order on strings that the sorted index relies on. Comparing the bytes
    of two UTF-8 strings agrees with comparing them by scalar value. */
module Strings {
  predicate Le(s: string, t: string)
  {
    s == [] || (t != [] && (s[0] < t[0] || (s[0] == t[0] && Le(s[1..], t[1..]))))
  }

  predicate Extends(uri: string, p: string) { p <= uri }

  predicate ProperlyExtends(q: string, p: string) { p < q }

  lemma {:induction false} LeTotal(s: string, t: string)
    ensures Le(s, t) || Le(t, s)
  {
    if s != [] && t != [] { LeTotal(s[1..], t[1..]); }
  }

  lemma {:induction false} LeAntisymmetric(s: string, t: string)
    requires Le(s, t) && Le(t, s)
    ensures s == t
  {
    if s != [] {
      LeAntisymmetric(s[1..], t[1..]);
      assert s == [s[0]] + s[1..] && t == [t[0]] + t[1..];
    }
  }

  lemma {:induction false} LeTransitive(s: string, t: string, u: string)
    requires Le(s, t) && Le(t, u)
    ensures Le(s, u)
  {
    if s != [] && s[0] == t[0] && t[0] == u[0] {
      LeTransitive(s[1..], t[1..], u[1..]);
    }
  }

  lemma {:induction false} LeReflexive(s: string)
    ensures Le(s, s)
  {
    if s != [] { LeReflexive(s[1..]); }
  }

  lemma {:induction false} PrefixIsBelow(p: string, uri: string)
    requires Extends(uri, p)
    ensures Le(p, uri)
  {
    if p != [] { PrefixIsBelow(p[1..], uri[1..]); }
  }

  /** The strings between a prefix of `uri` and `uri` all extend that prefix. */
  lemma {:induction false} Interval(p: string, q: string, uri: string)
    requires Extends(uri, p) && Le(p, q) && Le(q, uri)
    ensures Extends(q, p)
  {
    if p != [] {
      Interval(p[1..], q[1..], uri[1..]);
      assert p == [p[0]] + p[1..] && q == [q[0]] + q[1..];
    }
  }

  const MAX_CHAR: char := '\U{10FFFF}'

  /** The next character; surrogates are not characters. */
  function Successor(c: char): (d: char)
    requires c != MAX_CHAR
    ensures c < d
  {
    if c == '\U{D7FF}' then '\U{E000}' else (c as int + 1) as char
  }

  /** Raising the last character gives a greater string. */
  lemma {:induction false} RaisedIsAbove(s: string, c: char)
    requires s != [] && s[|s| - 1] < c
    ensures Le(s, s[..|s| - 1] + [c])
  {
    var t := s[..|s| - 1] + [c];
    if |s| > 1 {
      RaisedIsAbove(s[1..], c);
      assert t[1..] == s[1..][..|s| - 2] + [c];
    }
  }
}

/** Tool and resource capabilities of one tenant, compiled into hash sets, a
    sorted list of resource prefixes and a list of grants sorted by expiry. */
module Allowlist {
  import opened Basics
  import opened Strings

  const NANOS: int := 1_000_000_000

  datatype Grant = Grant(tool: string, untilUnixSecs: nat)

  datatype TenantAllowlist = TenantAllowlist(
    allowedTools: seq<string>,
    deniedTools: seq<string>,
    allowedResourcePrefixes: seq<string>,
    timeBoundedGrants: seq<Grant>)

  /** Expiry instants are nanoseconds since the Unix epoch. */
  datatype Expiring = Expiring(expiry: int, tool: string)

  datatype CompiledAllowlist = CompiledAllowlist(
    allowedTools: set<string>,
    deniedTools: set<string>,
    resourcePrefixes: seq<string>,
    timeBoundedGrants: seq<Expiring>)

  datatype DenialReason = InDenylist | NotInAllowlist | TenantUnknown

  datatype Request =
    | ToolCall(tool: string)
    | ResourceRead(resource: string)
    | ToolList
    | ResourceList
    | PromptList
    | PromptGet(name: string)
    | Lifecycle(phase: string)

  // ---- Compiling a configuration ----

  /** Every trailing star goes, not just one. */
  function TrimStars(p: string): (r: string)
    ensures r <= p
    ensures forall i :: |r| <= i < |p| ==> p[i] == '*'
    ensures r != [] ==> r[|r| - 1] != '*'
  {
    if p != [] && p[|p| - 1] == '*' then TrimStars(p[..|p| - 1]) else p
  }

  function Trimmed(prefixes: seq<string>): (r: seq<string>)
    ensures |r| == |prefixes|
    ensures forall i :: 0 <= i < |r| ==> r[i] == TrimStars(prefixes[i])
  {
    seq(|prefixes|, i requires 0 <= i < |prefixes| => TrimStars(prefixes[i]))
  }

  function Expiry(g: Grant): Expiring { Expiring(g.untilUnixSecs * NANOS, g.tool) }

  function Expiries(grants: seq<Grant>): (r: seq<Expiring>)
    ensures |r| == |grants|
    ensures forall i :: 0 <= i < |r| ==> r[i] == Expiry(grants[i])
  {
    seq(|grants|, i requires 0 <= i < |grants| => Expiry(grants[i]))
  }

  ghost predicate Sorted(s: seq<string>)
  {
    forall i, j :: 0 <= i < j < |s| ==> Le(s[i], s[j])
  }

  ghost predicate ByExpiry(s: seq<Expiring>)
  {
    forall i, j :: 0 <= i < j < |s| ==> s[i].expiry <= s[j].expiry
  }

  /** What compiling promises. The order among grants with equal expiry is left
      open, as an unstable sort leaves it. */
  ghost predicate CompiledFrom(cfg: TenantAllowlist, c: CompiledAllowlist)
  {
    && Sorted(c.resourcePrefixes)
    && multiset(c.resourcePrefixes) == multiset(Trimmed(cfg.allowedResourcePrefixes))
    && ByExpiry(c.timeBoundedGrants)
    && multiset(c.timeBoundedGrants) == multiset(Expiries(cfg.timeBoundedGrants))
    && (forall t :: t in c.allowedTools <==> t in cfg.allowedTools)
    && (forall t :: t in c.deniedTools <==> t in cfg.deniedTools)
  }

  lemma {:induction false} SameElements<T>(a: seq<T>, b: seq<T>, x: T)
    requires multiset(a) == multiset(b)
    ensures x in a <==> x in b
  {
    assert x in a <==> x in multiset(a);
    assert x in b <==> x in multiset(b);
  }

  lemma {:induction false} InsertedMultiset<T>(s: seq<T>, k: nat, x: T)
    requires k <= |s|
    ensures multiset(s[..k] + [x] + s[k..]) == multiset(s) + multiset{x}
  {
    assert s == s[..k] + s[k..];
  }

  lemma {:induction false} TakeMultiset<T>(s: seq<T>, i: nat)
    requires i < |s|
    ensures multiset(s[..i + 1]) == multiset(s[..i]) + multiset{s[i]}
  {
    assert s[..i + 1] == s[..i] + [s[i]];
  }

  lemma {:induction false} InsertedSorted(s: seq<string>, k: nat, x: string)
    requires Sorted(s) && k <= |s|
    requires forall i :: 0 <= i < k ==> Le(s[i], x)
    requires forall i :: k <= i < |s| ==> Le(x, s[i])
    ensures Sorted(s[..k] + [x] + s[k..])
  {
    var t := s[..k] + [x] + s[k..];
    assert forall i :: 0 <= i < k ==> t[i] == s[i];
    assert forall i :: k < i < |t| ==> t[i] == s[i - 1];
    assert t[k] == x;
  }

  method SortPrefixes(prefixes: seq<string>) returns (r: seq<string>)
    ensures Sorted(r) && multiset(r) == multiset(prefixes)
  {
    r := [];
    assert prefixes[..0] == [];
    for n := 0 to |prefixes|
      invariant Sorted(r) && multiset(r) == multiset(prefixes[..n])
    {
      var x, k := prefixes[n], |r|;
      while k > 0 && !Le(r[k - 1], x)
        invariant 0 <= k <= |r| && forall i :: k <= i < |r| ==> Le(x, r[i])
      {
        LeTotal(r[k - 1], x);
        k := k - 1;
      }
      forall i | 0 <= i < k ensures Le(r[i], x) {
        if i < k - 1 { LeTransitive(r[i], r[k - 1], x); }
      }
      InsertedSorted(r, k, x);
      InsertedMultiset(r, k, x);
      TakeMultiset(prefixes, n);
      r := r[..k] + [x] + r[k..];
    }
    assert prefixes[..|prefixes|] == prefixes;
  }

  lemma {:induction false} InsertedByExpiry(s: seq<Expiring>, k: nat, x: Expiring)
    requires ByExpiry(s) && k <= |s|
    requires k > 0 ==> s[k - 1].expiry <= x.expiry
    requires forall i :: k <= i < |s| ==> x.expiry <= s[i].expiry
    ensures ByExpiry(s[..k] + [x] + s[k..])
  {
    var t := s[..k] + [x] + s[k..];
    assert forall i :: 0 <= i < k ==> t[i] == s[i];
    assert forall i :: k < i < |t| ==> t[i] == s[i - 1];
    assert t[k] == x;
  }

  method SortGrants(grants: seq<Expiring>) returns (r: seq<Expiring>)
    ensures ByExpiry(r) && multiset(r) == multiset(grants)
  {
    r := [];
    assert grants[..0] == [];
    for n := 0 to |grants|
      invariant ByExpiry(r) && multiset(r) == multiset(grants[..n])
    {
      var x, k := grants[n], |r|;
      while k > 0 && r[k - 1].expiry > x.expiry
        invariant 0 <= k <= |r| && forall i :: k <= i < |r| ==> x.expiry <= r[i].expiry
      {
        k := k - 1;
      }
      InsertedByExpiry(r, k, x);
      InsertedMultiset(r, k, x);
      TakeMultiset(grants, n);
      r := r[..k] + [x] + r[k..];
    }
    assert grants[..|grants|] == grants;
  }

  method FromConfig(cfg: TenantAllowlist) returns (c: CompiledAllowlist)
    ensures CompiledFrom(cfg, c)
  {
    var prefixes := SortPrefixes(Trimmed(cfg.allowedResourcePrefixes));
    var grants := SortGrants(Expiries(cfg.timeBoundedGrants));
    c := CompiledAllowlist(
      (set t <- cfg.allowedTools), (set t <- cfg.deniedTools), prefixes, grants);
  }

  // ---- Queries ----

  /** Binary search for the first element that fails `pred`. */
  function PartitionPoint<T>(s: seq<T>, pred: T -> bool): (k: nat)
    requires forall i, j :: 0 <= i < j < |s| && pred(s[j]) ==> pred(s[i])
    ensures k <= |s|
    ensures forall i :: 0 <= i < k ==> pred(s[i])
    ensures forall i :: k <= i < |s| ==> !pred(s[i])
    decreases |s|
  {
    if s == [] then 0 else
    var m := |s| / 2;
    if pred(s[m]) then
      var upper := s[m + 1..];
      assert forall i :: m < i < |s| ==> s[i] == upper[i - m - 1];
      m + 1 + PartitionPoint(upper, pred)
    else PartitionPoint(s[..m], pred)
  }

  lemma {:induction false} BelowIsPartitioned(s: seq<string>, uri: string)
    requires Sorted(s)
    ensures forall i, j :: 0 <= i < j < |s| && Le(s[j], uri) ==> Le(s[i], uri)
  {
    forall i, j | 0 <= i < j < |s| && Le(s[j], uri) ensures Le(s[i], uri) {
      LeTransitive(s[i], s[j], uri);
    }
  }

  function ResourcePrefixMatches(s: seq<string>, uri: string): bool
    requires Sorted(s)
  {
    if s == [] then false else
    BelowIsPartitioned(s, uri);
    var pos := PartitionPoint(s, p => Le(p, uri));
    (pos > 0 && Extends(uri, s[pos - 1])) || (pos < |s| && Extends(uri, s[pos]))
  }

  function HasActiveGrant(s: seq<Expiring>, tool: string, now: int): bool
    requires ByExpiry(s)
  {
    var start := PartitionPoint(s, (g: Expiring) => g.expiry <= now);
    exists g <- s[start..] :: g.tool == tool
  }

  ghost predicate WellFormed(c: CompiledAllowlist)
  {
    Sorted(c.resourcePrefixes) && ByExpiry(c.timeBoundedGrants)
  }

  function CheckTool(c: CompiledAllowlist, tool: string, now: int): Option<DenialReason>
    requires WellFormed(c)
  {
    if tool in c.deniedTools then Some(InDenylist)
    else if tool in c.allowedTools then None
    else if HasActiveGrant(c.timeBoundedGrants, tool, now) then None
    else Some(NotInAllowlist)
  }

  function CheckResource(c: CompiledAllowlist, uri: string): Option<DenialReason>
    requires WellFormed(c)
  {
    if ResourcePrefixMatches(c.resourcePrefixes, uri) then None else Some(NotInAllowlist)
  }

  function Evaluate(c: CompiledAllowlist, request: Request, now: int): Option<DenialReason>
    requires WellFormed(c)
  {
    match request
    case ToolCall(tool) => CheckTool(c, tool, now)
    case ResourceRead(resource) => CheckResource(c, resource)
    case _ => None
  }

  // ---- The index against a linear scan ----

  /** The linear scan. */
  ghost predicate SomePrefix(s: seq<string>, uri: string)
  {
    exists p <- s :: p <= uri
  }

  /** `p` is the longest listed prefix of `uri`. */
  ghost predicate LongestListed(s: seq<string>, uri: string, p: string)
  {
    p in s && Extends(uri, p) && forall q <- s :: Extends(uri, q) ==> |q| <= |p|
  }

  /** `g` is the greatest listed string that is not above `uri`. */
  ghost predicate GreatestBelow(s: seq<string>, uri: string, g: string)
  {
    g in s && Le(g, uri) && forall q <- s :: Le(q, uri) ==> Le(q, g)
  }

  lemma {:induction false} IndexOf<T>(s: seq<T>, x: T) returns (i: nat)
    requires x in s
    ensures i < |s| && s[i] == x
  {
    i :| 0 <= i < |s| && s[i] == x;
  }

  /** The index consults one string alone: the second disjunct never matters. */
  lemma {:induction false} MatchIsGreatestBelow(s: seq<string>, uri: string, g: string)
    requires Sorted(s) && GreatestBelow(s, uri, g)
    ensures ResourcePrefixMatches(s, uri) <==> Extends(uri, g)
  {
    BelowIsPartitioned(s, uri);
    var pos := PartitionPoint(s, p => Le(p, uri));
    var i := IndexOf(s, g);
    assert i < pos;
    assert Le(s[pos - 1], uri);
    assert Le(s[pos - 1], g);
    LeReflexive(g);
    assert Le(g, s[pos - 1]);
    LeAntisymmetric(g, s[pos - 1]);
    if pos < |s| && Extends(uri, s[pos]) { PrefixIsBelow(s[pos], uri); }
  }

  lemma {:induction false} MatchImpliesPrefix(s: seq<string>, uri: string)
    requires Sorted(s) && ResourcePrefixMatches(s, uri)
    ensures SomePrefix(s, uri)
  {
    BelowIsPartitioned(s, uri);
    var pos := PartitionPoint(s, p => Le(p, uri));
    if pos > 0 && Extends(uri, s[pos - 1]) { assert s[pos - 1] in s; }
    else { assert s[pos] in s; }
  }

  lemma {:induction false} GreatestExists(s: seq<string>, uri: string, q: string) returns (g: string)
    requires Sorted(s) && q in s && Le(q, uri)
    ensures GreatestBelow(s, uri, g)
  {
    BelowIsPartitioned(s, uri);
    var pos := PartitionPoint(s, p => Le(p, uri));
    var i := IndexOf(s, q);
    g := s[pos - 1];
    forall x | x in s && Le(x, uri) ensures Le(x, g) {
      var j := IndexOf(s, x);
      LeReflexive(g);
    }
  }

  /** A string above `p` in the interval up to `uri` extends `p`. */
  lemma {:induction false} AboveExtends(p: string, q: string, uri: string)
    requires Extends(uri, p) && Le(p, q) && Le(q, uri) && p != q
    ensures ProperlyExtends(q, p)
  {
    Interval(p, q, uri);
  }

  /** When a URI with a listed prefix is let through: exactly when no listed
      extension of its longest listed prefix sorts at or below it. */
  lemma {:induction false} MatchIff(s: seq<string>, uri: string, p: string)
    requires Sorted(s) && LongestListed(s, uri, p)
    ensures ResourcePrefixMatches(s, uri) <==>
            !exists q <- s :: ProperlyExtends(q, p) && Le(q, uri)
  {
    PrefixIsBelow(p, uri);
    var g := GreatestExists(s, uri, p);
    MatchIsGreatestBelow(s, uri, g);
    if g != p {
      AboveExtends(p, g, uri);
    }
    if q :| q in s && ProperlyExtends(q, p) && Le(q, uri) {
      if g == p {
        PrefixIsBelow(p, q);
        LeAntisymmetric(p, q);
      }
    }
  }

  /** Some listed string at or below `uri` extends every listed prefix of `uri`
      but is none itself. */
  ghost predicate Shadowed(s: seq<string>, uri: string)
  {
    exists q <- s :: Le(q, uri) && !Extends(uri, q) && AboveAll(s, uri, q)
  }

  ghost predicate AboveAll(s: seq<string>, uri: string, q: string)
  {
    forall p <- s :: Extends(uri, p) ==> ProperlyExtends(q, p)
  }

  lemma {:induction false} LongestExists(s: seq<string>, uri: string, n: nat) returns (p: string)
    requires n <= |s| && SomePrefix(s[..n], uri)
    ensures LongestListed(s[..n], uri, p)
  {
    var last := s[n - 1];
    assert s[..n] == s[..n - 1] + [last];
    if SomePrefix(s[..n - 1], uri) {
      p := LongestExists(s, uri, n - 1);
      if Extends(uri, last) && |p| < |last| { p := last; }
    } else {
      p := last;
    }
  }

  /** The index lets a URI through exactly when a listed prefix covers it and
      nothing listed shadows it. */
  lemma {:induction false} MatchIffUnshadowed(s: seq<string>, uri: string)
    requires Sorted(s)
    ensures ResourcePrefixMatches(s, uri) <==> SomePrefix(s, uri) && !Shadowed(s, uri)
  {
    if ResourcePrefixMatches(s, uri) { MatchImpliesPrefix(s, uri); }
    if SomePrefix(s, uri) {
      assert s[..|s|] == s;
      var p := LongestExists(s, uri, |s|);
      MatchIff(s, uri, p);
      if q :| q in s && ProperlyExtends(q, p) && Le(q, uri) {
        assert AboveAll(s, uri, q);
      }
    }
  }

  /** No listed prefix properly extends another. */
  ghost predicate Independent(s: seq<string>)
  {
    forall p <- s, q <- s :: !ProperlyExtends(q, p)
  }

  ghost predicate Exact(s: seq<string>)
    requires Sorted(s)
  {
    forall uri :: ResourcePrefixMatches(s, uri) <==> SomePrefix(s, uri)
  }

  lemma {:induction false} IndependentIsExact(s: seq<string>)
    requires Sorted(s) && Independent(s)
    ensures Exact(s)
  {
    forall uri ensures ResourcePrefixMatches(s, uri) <==> SomePrefix(s, uri) {
      MatchIffUnshadowed(s, uri);
    }
  }

  /** The last listed string that properly extends `p`. */
  lemma {:induction false} LastExtension(s: seq<string>, p: string, q: string, n: nat) returns (r: string)
    requires Sorted(s) && n <= |s| && q in s[..n] && ProperlyExtends(q, p)
    ensures r in s && ProperlyExtends(r, p)
    ensures forall x <- s[..n] :: ProperlyExtends(x, p) ==> Le(x, r)
  {
    var last := s[n - 1];
    assert s[..n] == s[..n - 1] + [last];
    if ProperlyExtends(last, p) {
      r := last;
      forall x | x in s[..n] ensures Le(x, r) {
        var i := IndexOf(s[..n], x);
        LeReflexive(r);
      }
    } else {
      r := LastExtension(s, p, q, n - 1);
    }
  }

  /** The URI that the index misses when `q` extends `p`: the last listed extension of `p` with
      its last character raised by one. */
  lemma {:induction false} NestedIsMissed(s: seq<string>, p: string, q: string) returns (uri: string)
    requires Sorted(s) && p in s && q in s && ProperlyExtends(q, p)
    requires forall x <- s :: x != [] ==> x[|x| - 1] != MAX_CHAR
    ensures SomePrefix(s, uri) && !ResourcePrefixMatches(s, uri)
  {
    assert s[..|s|] == s;
    var r := LastExtension(s, p, q, |s|);
    var next := Successor(r[|r| - 1]);
    uri := r[..|r| - 1] + [next];
    RaisedIsAbove(r, next);
    assert Extends(uri, p);
    var g := GreatestExists(s, uri, r);
    MatchIsGreatestBelow(s, uri, g);
    PrefixIsBelow(p, uri);
    if g == p {
      PrefixIsBelow(p, r);
      LeAntisymmetric(p, r);
    } else {
      AboveExtends(p, g, uri);
      LeAntisymmetric(g, r);
    }
    assert g == r;
  }

  /** The index agrees with the scan on every URI exactly when the configured
      prefixes are independent. U+10FFFF, the one character with none above it, ends no URI. */
  lemma {:induction false} ExactIff(s: seq<string>)
    requires Sorted(s)
    requires forall x <- s :: x != [] ==> x[|x| - 1] != MAX_CHAR
    ensures Exact(s) <==> Independent(s)
  {
    if Independent(s) {
      IndependentIsExact(s);
    } else {
      var p, q :| p in s && q in s && ProperlyExtends(q, p);
      var uri := NestedIsMissed(s, p, q);
    }
  }

  // ---- The policy in terms of the configuration ----

  lemma {:induction false} GrantIff(cfg: TenantAllowlist, c: CompiledAllowlist, tool: string, now: int)
    requires CompiledFrom(cfg, c)
    ensures HasActiveGrant(c.timeBoundedGrants, tool, now) <==>
            exists g <- cfg.timeBoundedGrants :: g.tool == tool && now < g.untilUnixSecs * 1_000_000_000
  {
    var s, e := c.timeBoundedGrants, Expiries(cfg.timeBoundedGrants);
    var start := PartitionPoint(s, (g: Expiring) => g.expiry <= now);
    if HasActiveGrant(s, tool, now) {
      var x :| x in s[start..] && x.tool == tool;
      var i := IndexOf(s[start..], x);
      assert x == s[start + i];
      SameElements(s, e, x);
      var j := IndexOf(e, x);
      assert cfg.timeBoundedGrants[j] in cfg.timeBoundedGrants;
    }
    if g :| g in cfg.timeBoundedGrants && g.tool == tool && now < g.untilUnixSecs * NANOS {
      var j := IndexOf(cfg.timeBoundedGrants, g);
      assert e[j] == Expiry(g);
      SameElements(s, e, Expiry(g));
      var i := IndexOf(s, Expiry(g));
      assert s[start..][i - start] == Expiry(g);
    }
  }

  /** The configured patterns that cover a URI. */
  ghost predicate Covers(cfg: TenantAllowlist, uri: string)
  {
    exists p <- cfg.allowedResourcePrefixes :: TrimStars(p) <= uri
  }

  lemma {:induction false} ScanIsCovers(cfg: TenantAllowlist, c: CompiledAllowlist, uri: string)
    requires CompiledFrom(cfg, c)
    ensures SomePrefix(c.resourcePrefixes, uri) <==> Covers(cfg, uri)
  {
    var s, t := c.resourcePrefixes, Trimmed(cfg.allowedResourcePrefixes);
    if SomePrefix(s, uri) {
      var p :| p in s && Extends(uri, p);
      SameElements(s, t, p);
      var i := IndexOf(t, p);
      assert cfg.allowedResourcePrefixes[i] in cfg.allowedResourcePrefixes;
    }
    if p :| p in cfg.allowedResourcePrefixes && Extends(uri, TrimStars(p)) {
      var i := IndexOf(cfg.allowedResourcePrefixes, p);
      assert t[i] == TrimStars(p);
      SameElements(s, t, TrimStars(p));
    }
  }

  lemma {:induction false} ShadowedOfElements(s: seq<string>, t: seq<string>, uri: string)
    requires multiset(s) == multiset(t) && Shadowed(s, uri)
    ensures Shadowed(t, uri)
  {
    var q :| q in s && Le(q, uri) && !Extends(uri, q) && AboveAll(s, uri, q);
    SameElements(s, t, q);
    forall p | p in t && Extends(uri, p) ensures ProperlyExtends(q, p) { SameElements(s, t, p); }
    assert AboveAll(t, uri, q);
  }

  /** The configured patterns let a URI through. */
  ghost predicate ResourcePermitted(cfg: TenantAllowlist, uri: string)
  {
    Covers(cfg, uri) && !Shadowed(Trimmed(cfg.allowedResourcePrefixes), uri)
  }

  ghost predicate ToolPermitted(cfg: TenantAllowlist, tool: string, now: int)
  {
    && tool !in cfg.deniedTools
    && (tool in cfg.allowedTools
        || exists g <- cfg.timeBoundedGrants :: g.tool == tool && now < g.untilUnixSecs * 1_000_000_000)
  }

  /** No configured pattern, its stars gone, properly extends another. */
  ghost predicate IndependentConfig(cfg: TenantAllowlist)
  {
    forall p <- cfg.allowedResourcePrefixes, q <- cfg.allowedResourcePrefixes ::
      !ProperlyExtends(TrimStars(q), TrimStars(p))
  }

  lemma {:induction false} IndependentPermits(cfg: TenantAllowlist, uri: string)
    requires IndependentConfig(cfg)
    ensures ResourcePermitted(cfg, uri) <==> Covers(cfg, uri)
  {
  }

  /** The verdict the configuration calls for. */
  ghost function Verdict(cfg: TenantAllowlist, request: Request, now: int): Option<DenialReason>
  {
    match request
    case ToolCall(tool) =>
      if ToolPermitted(cfg, tool, now) then None
      else if tool in cfg.deniedTools then Some(InDenylist)
      else Some(NotInAllowlist)
    case ResourceRead(uri) =>
      if ResourcePermitted(cfg, uri) then None else Some(NotInAllowlist)
    case _ => None
  }

  /** The compiled form decides as the configuration says, on every request. */
  lemma {:induction false} PolicyHolds(cfg: TenantAllowlist, c: CompiledAllowlist, request: Request, now: int)
    requires CompiledFrom(cfg, c)
    ensures Evaluate(c, request, now) == Verdict(cfg, request, now)
  {
    match request {
      case ToolCall(tool) => GrantIff(cfg, c, tool, now);
      case ResourceRead(uri) =>
        var s, t := c.resourcePrefixes, Trimmed(cfg.allowedResourcePrefixes);
        ScanIsCovers(cfg, c, uri);
        MatchIffUnshadowed(s, uri);
        if Shadowed(s, uri) { ShadowedOfElements(s, t, uri); }
        if Shadowed(t, uri) { ShadowedOfElements(t, s, uri); }
      case _ =>
    }
  }

  /** A pattern for everything stops covering most URIs as soon as a longer
      pattern stands beside it. */
  lemma {:induction false} StarIsShadowed(c: CompiledAllowlist)
    requires CompiledFrom(TenantAllowlist([], [], ["*", "a*"], []), c)
    ensures Covers(TenantAllowlist([], [], ["*", "a*"], []), "b")
    ensures Evaluate(c, ResourceRead("b"), 0) == Some(NotInAllowlist)
  {
    var cfg := TenantAllowlist([], [], ["*", "a*"], []);
    assert "*"[..0] == "" && TrimStars("*") == "";
    assert "a*"[..1] == "a" && TrimStars("a*") == "a";
    assert "*" in cfg.allowedResourcePrefixes;
    var s := c.resourcePrefixes;
    assert Trimmed(cfg.allowedResourcePrefixes) == ["", "a"];
    SameElements(s, ["", "a"], "");
    SameElements(s, ["", "a"], "a");
    forall x | x in s ensures x == "" || x == "a" { SameElements(s, ["", "a"], x); }
    assert LongestListed(s, "b", "");
    assert ProperlyExtends("a", "") && Le("a", "b");
    MatchIff(s, "b", "");
  }

  // ---- The broker ----

  datatype Decision = Allow | Deny(reason: DenialReason)

  datatype AuditEvent = AuditEvent(tenant: nat, request: Request, allowed: bool, at: int)

  /** What a broker with these tenants decides. */
  ghost function Decide(configs: map<nat, TenantAllowlist>, tenant: nat, request: Request, now: int): Decision
  {
    if tenant !in configs then Deny(TenantUnknown)
    else match Verdict(configs[tenant], request, now)
      case Some(reason) => Deny(reason)
      case None => Allow
  }

  class AllowlistBroker {
    var tenants: map<nat, CompiledAllowlist>
    var audit: seq<AuditEvent>
    ghost var configs: map<nat, TenantAllowlist>

    ghost predicate Valid()
      reads this
    {
      tenants.Keys == configs.Keys && forall t <- configs :: CompiledFrom(configs[t], tenants[t])
    }

    constructor (config: map<nat, TenantAllowlist>)
      ensures Valid() && configs == config && audit == []
    {
      var compiled: map<nat, CompiledAllowlist> := map[];
      var todo := config.Keys;
      while todo != {}
        invariant todo <= config.Keys && compiled.Keys == config.Keys - todo
        invariant forall t <- compiled :: CompiledFrom(config[t], compiled[t])
      {
        var t :| t in todo;
        var c := FromConfig(config[t]);
        compiled := compiled[t := c];
        todo := todo - {t};
      }
      tenants, audit, configs := compiled, [], config;
    }

    /** One audit record goes to the log for every decision, with that
        decision, unless the log write fails (`written`). */
    method Authorize(tenant: nat, request: Request, now: int, written: bool) returns (d: Decision)
      requires Valid()
      modifies this`audit
      ensures Valid()
      ensures d == Decide(configs, tenant, request, now)
      ensures audit == old(audit) +
        if written then [AuditEvent(tenant, request, d == Allow, now)] else []
    {
      if tenant !in tenants {
        d := Deny(TenantUnknown);
      } else {
        PolicyHolds(configs[tenant], tenants[tenant], request, now);
        var denial := Evaluate(tenants[tenant], request, now);
        d := match denial case Some(reason) => Deny(reason) case None => Allow;
      }
      if written {
        audit := audit + [AuditEvent(tenant, request, d == Allow, now)];
      }
    }
  }
}
