/**
 * What capabilities permit when a request arrives, and the attenuation
 * theorem: whatever a narrowing permits, its parent permits.
 */
module Enforcement {
  import opened Prelude
  import opened Capabilities

  datatype ShellMode = Shell | Exec

  datatype ShellReq = ShellReq(mode: ShellMode, argv: Option<seq<string>>, pty: bool, user: Option<string>)

  datatype Denial = CapDenied | SpawnFailed | NotAllowed | NotPermitted

  type Verdict = Result<(), Denial>

  predicate HostMatches(pattern: string, host: string) {
    if pattern == "*" then true
    else if "*." <= pattern then EndsWith(host, "." + pattern[2..]) || host == pattern[2..]
    else if EndsWith(pattern, ".*") then pattern[..|pattern| - 2] + "." <= host
    else pattern == host
  }

  predicate IsLoopback(host: string) {
    host == "localhost" || host == "127.0.0.1" || host == "::1"
  }

  predicate ListenHostMatches(pattern: string, host: string) {
    if pattern == "*" then IsLoopback(host) else HostMatches(pattern, host)
  }

  function ShellPermits(caps: Caps, req: ShellReq): Verdict {
    if caps.shell.None? then Err(CapDenied) else
    var shell := caps.shell.value;
    if req.mode == Shell && !shell.ptyAllowed then Err(CapDenied)
    else if req.mode == Exec && !shell.execAllowed then Err(CapDenied)
    else if req.pty && !shell.ptyAllowed then Err(CapDenied)
    else if shell.userAllowlist.Some?
              && (if req.user.Some? then req.user.value else "") !in shell.userAllowlist.value then Err(CapDenied)
    else if req.mode == Exec && shell.commandAllowlist.Some? then
      if req.argv.None? || req.argv.value == [] then Err(SpawnFailed)
      else if req.argv.value[0] !in shell.commandAllowlist.value then Err(CapDenied)
      else Ok(())
    else Ok(())
  }

  predicate ConnectAdmits(rule: PortRule, host: string, lo: nat, hi: nat) {
    HostMatches(rule.hostGlob, host) && rule.portMin <= lo && hi <= rule.portMax
  }

  predicate ListenAdmits(rule: PortRule, host: string, port: nat) {
    ListenHostMatches(rule.hostGlob, host) && rule.portMin <= port <= rule.portMax
  }

  function TcpPermits(caps: Caps, host: string, port: nat): Verdict {
    if caps.tcp.None? then Err(NotAllowed)
    else if exists r :: r in caps.tcp.value && ConnectAdmits(r, host, port, port) then Ok(())
    else Err(NotPermitted)
  }

  function TcpListenPermits(caps: Caps, host: string, port: nat): Verdict {
    if caps.presence & TCP_LISTEN_CAP_BIT == 0 then Err(NotAllowed)
    else if caps.tcp.None? then Err(NotAllowed)
    else if exists r :: r in caps.tcp.value && ListenAdmits(r, host, port) then Ok(())
    else Err(NotPermitted)
  }

  function UnixPermits(caps: Caps, listen: bool, path: string): Verdict {
    if caps.unix.None? then Err(NotAllowed) else
    var rules := if listen then caps.unix.value.listen else caps.unix.value.connect;
    if exists r :: r in rules && MatchesPath(r, path) then Ok(()) else Err(NotPermitted)
  }

  function UdpPermits(caps: Caps, host: string, lo: nat, hi: nat): Verdict {
    if caps.udp.None? then Err(NotAllowed)
    else if exists r :: r in caps.udp.value && ConnectAdmits(r, host, lo, hi) then Ok(())
    else Err(NotPermitted)
  }

  // ---------- Attenuation, family by family ----------

  lemma ShellAttenuates(parent: Caps, child: Caps, req: ShellReq)
    requires IsNarrowing(parent, child) && ShellPermits(child, req).Ok?
    ensures ShellPermits(parent, req).Ok?
  {
  }

  lemma ConnectAttenuates(parent: seq<PortRule>, child: seq<PortRule>, host: string, lo: nat, hi: nat)
    requires PortRulesNarrow(parent, child)
    requires exists c :: c in child && ConnectAdmits(c, host, lo, hi)
    ensures exists p :: p in parent && ConnectAdmits(p, host, lo, hi)
  {
    var c :| c in child && ConnectAdmits(c, host, lo, hi);
    var p :| p in parent && PortRuleCovers(p, c);
    assert ConnectAdmits(p, host, lo, hi);
  }

  /** Covering of path rules has its meaning: a covered rule matches no path its cover does not. */
  lemma PathRuleAttenuates(parent: string, child: string, path: string)
    requires RuleCovers(parent, child) && MatchesPath(child, path)
    ensures MatchesPath(parent, path)
  {
  }

  lemma UnixAttenuates(parent: seq<string>, child: seq<string>, path: string)
    requires UnixRulesNarrow(parent, child)
    requires exists c :: c in child && MatchesPath(c, path)
    ensures exists p :: p in parent && MatchesPath(p, path)
  {
    var c :| c in child && MatchesPath(c, path);
    var p :| p in parent && RuleCovers(p, c);
    PathRuleAttenuates(p, c, path);
  }

  // ---------- Listening: `*` covers every glob but admits only loopback ----------

  /**
   * For a covered pair of host globs, every host the child admits for listening
   * is admitted by the parent exactly when the parent is not the wildcard, or
   * the child is the wildcard too, or the child names one loopback host.
   */
  lemma ListenGlobAttenuatesIff(parent: string, child: string)
    requires HostGlobCovers(parent, child)
    ensures (forall host :: ListenHostMatches(child, host) ==> ListenHostMatches(parent, host))
       <==> parent != "*" || child == "*" || IsLoopback(child)
  {
    if parent == "*" && child != "*" {
      var host := NonLoopbackMatch(child);
      if IsLoopback(child) {
        LoopbackIsLiteral(child);
      } else {
        NonLoopbackMatches(child);
        assert ListenHostMatches(child, host) && !ListenHostMatches(parent, host);
      }
    }
  }

  /** A host matched by the pattern that is a loopback name only if the pattern is. */
  function NonLoopbackMatch(pattern: string): string {
    if "*." <= pattern then "x." + pattern[2..]
    else if EndsWith(pattern, ".*") then pattern[..|pattern| - 2] + "."
    else pattern
  }

  lemma NonLoopbackMatches(pattern: string)
    requires pattern != "*" && !IsLoopback(pattern)
    ensures HostMatches(pattern, NonLoopbackMatch(pattern)) && !IsLoopback(NonLoopbackMatch(pattern))
  {
    var host := NonLoopbackMatch(pattern);
    if "*." <= pattern {
      assert host[|host| - |"." + pattern[2..]|..] == "." + pattern[2..];
      assert host[0] == 'x';
    } else if EndsWith(pattern, ".*") {
      assert host[|host| - 1] == '.';
    }
  }

  lemma LoopbackIsLiteral(pattern: string)
    requires IsLoopback(pattern)
    ensures !("*." <= pattern) && !EndsWith(pattern, ".*")
  {
    StarSuffix(pattern);
    assert pattern[0] != '*' && pattern[|pattern| - 1] != '*';
  }

  lemma StarSuffix(s: string)
    ensures EndsWith(s, ".*") ==> s[|s| - 1] == '*'
  {
    if EndsWith(s, ".*") {
      assert s[|s| - 2..][1] == '*';
    }
  }

  /** A covering rule that admits no less for listening: not the wildcard, unless over itself or a loopback host. */
  predicate ListenCovers(parent: PortRule, child: PortRule) {
    && PortRuleCovers(parent, child)
    && (parent.hostGlob != "*" || child.hostGlob == "*" || IsLoopback(child.hostGlob)
        || child.portMin > child.portMax)
  }

  /** For a covered pair of rules this is exact, over all hosts and ports. */
  lemma ListenRuleAttenuatesIff(parent: PortRule, child: PortRule)
    requires PortRuleCovers(parent, child)
    ensures (forall host, port: nat :: ListenAdmits(child, host, port) ==> ListenAdmits(parent, host, port))
       <==> ListenCovers(parent, child)
  {
    ListenGlobAttenuatesIff(parent.hostGlob, child.hostGlob);
    if !ListenCovers(parent, child) {
      var host :| ListenHostMatches(child.hostGlob, host) && !ListenHostMatches(parent.hostGlob, host);
      assert ListenAdmits(child, host, child.portMin) && !ListenAdmits(parent, host, child.portMin);
    } else {
      forall host, port: nat | ListenAdmits(child, host, port)
        ensures ListenAdmits(parent, host, port)
      {
        assert ListenHostMatches(parent.hostGlob, host);
      }
    }
  }

  /** Every rule of the child has a covering rule that admits no less for listening. */
  predicate ListenNarrows(parent: Caps, child: Caps) {
    child.tcp.Some? ==>
      parent.tcp.Some? && forall c :: c in child.tcp.value ==> exists p :: p in parent.tcp.value && ListenCovers(p, c)
  }

  /** Then a listen on any host attenuates. */
  lemma ListenNarrowsAttenuates(parent: Caps, child: Caps, host: string, port: nat)
    requires IsNarrowing(parent, child) && ListenNarrows(parent, child) && TcpListenPermits(child, host, port).Ok?
    ensures TcpListenPermits(parent, host, port).Ok?
  {
    ListenBitMonotone(parent.presence, child.presence);
    var c :| c in child.tcp.value && ListenAdmits(c, host, port);
    var p :| p in parent.tcp.value && ListenCovers(p, c);
    ListenRuleAttenuatesIff(p, c);
    assert ListenAdmits(p, host, port);
  }

  lemma ListenAttenuates(parent: seq<PortRule>, child: seq<PortRule>, host: string, port: nat)
    requires PortRulesNarrow(parent, child) && IsLoopback(host)
    requires exists c :: c in child && ListenAdmits(c, host, port)
    ensures exists p :: p in parent && ListenAdmits(p, host, port)
  {
    var c :| c in child && ListenAdmits(c, host, port);
    var p :| p in parent && PortRuleCovers(p, c);
    assert ListenAdmits(p, host, port);
  }

  lemma ListenBitMonotone(parent: bv8, child: bv8)
    requires PresenceNarrows(parent, child) && child & TCP_LISTEN_CAP_BIT != 0
    ensures parent & TCP_LISTEN_CAP_BIT != 0
  {
  }

  // ---------- Listening, for whole rule lists ----------

  predicate IsSuffixGlob(glob: string) {
    "*." <= glob
  }

  predicate IsPrefixGlob(glob: string) {
    !("*." <= glob) && EndsWith(glob, ".*")
  }

  /** Every host of the child's glob is one of the parent's: both leave the same end open, and the parent fixes less. */
  predicate GlobWithin(child: string, parent: string) {
    if IsSuffixGlob(child) then IsSuffixGlob(parent) && EndsWith("." + child[2..], "." + parent[2..])
    else
      IsPrefixGlob(child) && IsPrefixGlob(parent) && parent[..|parent| - 2] + "." <= child[..|child| - 2] + "."
  }

  predicate AdmitsListen(rules: seq<PortRule>, host: string, port: nat) {
    exists p :: p in rules && ListenAdmits(p, host, port)
  }

  /**
   * The rules admit on a port all that a glob does: the three loopback hosts for `*`, the
   * host itself for a literal, and otherwise through one rule whose glob is wider.
   */
  predicate CoversListen(rules: seq<PortRule>, glob: string, port: nat) {
    if glob == "*" then
      AdmitsListen(rules, "localhost", port) && AdmitsListen(rules, "127.0.0.1", port) && AdmitsListen(rules, "::1", port)
    else if IsSuffixGlob(glob) || IsPrefixGlob(glob) then
      exists p :: p in rules && p.portMin <= port <= p.portMax && GlobWithin(glob, p.hostGlob)
    else AdmitsListen(rules, glob, port)
  }

  function Zs(n: nat): string {
    seq(n, _ => 'z')
  }

  /** A host of the glob whose open end is longer than any rule. */
  function Probe(glob: string, n: nat): string {
    if IsSuffixGlob(glob) then Zs(n) + "." + glob[2..]
    else if IsPrefixGlob(glob) then glob[..|glob| - 2] + "." + Zs(n)
    else glob
  }

  lemma ProbeMatches(glob: string, n: nat)
    requires IsSuffixGlob(glob) || IsPrefixGlob(glob)
    ensures glob != "*" && HostMatches(glob, Probe(glob, n))
  {
    var host := Probe(glob, n);
    if IsSuffixGlob(glob) {
      assert host == Zs(n) + ("." + glob[2..]);
      assert host[n..] == "." + glob[2..];
    } else {
      assert glob != "*";
    }
  }

  lemma ProbeNotLoopback(glob: string, n: nat)
    requires n > 0 && (IsSuffixGlob(glob) || IsPrefixGlob(glob))
    ensures !IsLoopback(Probe(glob, n))
  {
    var host := Probe(glob, n);
    if IsSuffixGlob(glob) {
      assert host[0] == Zs(n)[0] == 'z';
    } else {
      assert host[|host| - 1] == Zs(n)[n - 1] == 'z';
    }
  }

  /** The probe of a suffix glob ends in a dotted text no longer than its run only if the glob does. */
  lemma SuffixOfProbe(suffix: string, n: nat, t: string)
    requires |t| <= n && t != "" && t[0] == '.' && EndsWith(Zs(n) + suffix, t)
    ensures EndsWith(suffix, t)
  {
    var host := Zs(n) + suffix;
    var at := |host| - |t|;
    assert host[at] == host[at..][0] == '.';
    assert forall i :: 0 <= i < n ==> host[i] == 'z';
    assert at >= n;
    assert host[at..] == suffix[at - n..];
  }

  lemma PrefixOfProbe(prefix: string, n: nat, t: string)
    requires |t| <= n && t != "" && t[|t| - 1] == '.' && t <= prefix + Zs(n)
    ensures t <= prefix
  {
    var host := prefix + Zs(n);
    var at := |t| - 1;
    assert host[at] == host[..|t|][at] == '.';
    assert forall i :: |prefix| <= i < |host| ==> host[i] == 'z';
    assert at < |prefix|;
    assert host[..|t|] == prefix[..|t|];
  }

  /** A rule shorter than the run admits the probe only if its glob is wider. */
  lemma ProbeWithin(child: string, parent: string, n: nat)
    requires (IsSuffixGlob(child) || IsPrefixGlob(child)) && |parent| < n
    requires ListenHostMatches(parent, Probe(child, n))
    ensures GlobWithin(child, parent)
  {
    var host := Probe(child, n);
    ProbeNotLoopback(child, n);
    assert |host| >= n > |parent|;
    if IsSuffixGlob(child) {
      assert host == Zs(n) + ("." + child[2..]);
      if IsSuffixGlob(parent) {
        SuffixOfProbe("." + child[2..], n, "." + parent[2..]);
      } else {
        ZsHaveNoDot(n, host, parent);
      }
    } else if IsPrefixGlob(parent) {
      PrefixOfProbe(child[..|child| - 2] + ".", n, parent[..|parent| - 2] + ".");
    } else {
      ZsEndWithoutDot(n, host, parent);
    }
  }

  lemma NotPrefix(t: string, host: string, i: nat)
    requires i < |t| && i < |host| && t[i] != host[i]
    ensures !(t <= host)
  {
  }

  lemma NotSuffix(t: string, host: string)
    requires t != "" && |t| <= |host| && t[0] != host[|host| - |t|]
    ensures !EndsWith(host, t)
  {
    assert host[|host| - |t|..][0] == host[|host| - |t|];
  }

  lemma ZsHaveNoDot(n: nat, host: string, parent: string)
    requires |parent| < n && Zs(n) <= host
    ensures !IsSuffixGlob(parent) && parent != "*" ==> !HostMatches(parent, host)
  {
    if IsPrefixGlob(parent) {
      var t := parent[..|parent| - 2] + ".";
      assert host[|t| - 1] == Zs(n)[|t| - 1] == 'z';
      assert t[|t| - 1] == '.';
      NotPrefix(t, host, |t| - 1);
    }
  }

  lemma ZsEndWithoutDot(n: nat, host: string, parent: string)
    requires |parent| < n && EndsWith(host, Zs(n))
    ensures !IsPrefixGlob(parent) && parent != "*" ==> !HostMatches(parent, host)
  {
    if IsSuffixGlob(parent) {
      var t := "." + parent[2..];
      assert |t| < n;
      var at := |host| - |t|;
      assert host[at] == host[|host| - n..][n - |t|] == 'z';
      NotSuffix(t, host);
    }
  }

  lemma SuffixOfSuffix(host: string, c: string, p: string)
    requires EndsWith(host, c) && EndsWith(c, p)
    ensures EndsWith(host, p)
  {
    var tail := host[|host| - |c|..];
    assert host[|host| - |p|..] == tail[|c| - |p|..];
  }

  lemma SuffixOfRest(c: string, p: string)
    requires c != "" && EndsWith(c, p) && |p| < |c|
    ensures EndsWith(c[1..], p)
  {
    var rest := c[1..];
    assert rest[|rest| - |p|..] == c[|c| - |p|..];
  }

  lemma WithinSuffix(child: string, parent: string, host: string)
    requires IsSuffixGlob(child) && GlobWithin(child, parent) && HostMatches(child, host)
    ensures EndsWith(host, "." + parent[2..]) || host == parent[2..]
  {
    var c, p := "." + child[2..], "." + parent[2..];
    assert child != "*" by { assert child[1] == '.'; }
    assert c[1..] == child[2..] && p[1..] == parent[2..];
    if EndsWith(host, c) {
      SuffixOfSuffix(host, c, p);
    } else if |p| == |c| {
      assert c[0..] == c;
    } else {
      SuffixOfRest(c, p);
    }
  }

  lemma WithinPrefix(child: string, parent: string, host: string)
    requires IsPrefixGlob(child) && GlobWithin(child, parent) && HostMatches(child, host)
    ensures parent[..|parent| - 2] + "." <= host
  {
    var c, p := child[..|child| - 2] + ".", parent[..|parent| - 2] + ".";
    assert c <= host && p <= c;
  }

  /** A wider glob matches every host of the narrower one. */
  lemma WithinMatches(child: string, parent: string, host: string)
    requires GlobWithin(child, parent) && HostMatches(child, host)
    ensures parent != "*" && HostMatches(parent, host)
  {
    if IsSuffixGlob(child) {
      WithinSuffix(child, parent, host);
      assert parent[1] == '.';
    } else {
      WithinPrefix(child, parent, host);
      assert |parent| >= 2;
    }
  }

  function Longest(rules: seq<PortRule>): nat {
    if rules == [] then 0
    else
      var n := Longest(rules[1..]);
      if |rules[0].hostGlob| <= n then n else |rules[0].hostGlob|
  }

  lemma {:induction false} LongestBounds(rules: seq<PortRule>, r: PortRule)
    requires r in rules
    ensures |r.hostGlob| <= Longest(rules)
  {
    if r != rules[0] {
      LongestBounds(rules[1..], r);
    }
  }

  lemma WithinAdmits(rules: seq<PortRule>, p: PortRule, glob: string, host: string, port: nat)
    requires p in rules && p.portMin <= port <= p.portMax && GlobWithin(glob, p.hostGlob)
    requires glob != "*" && ListenHostMatches(glob, host)
    ensures AdmitsListen(rules, host, port)
  {
    WithinMatches(glob, p.hostGlob, host);
    assert ListenAdmits(p, host, port);
  }

  /** The rules admit every host of the glob on the port. */
  ghost predicate AdmitsAll(rules: seq<PortRule>, glob: string, port: nat) {
    forall host :: ListenHostMatches(glob, host) ==> AdmitsListen(rules, host, port)
  }

  lemma WildcardCovers(rules: seq<PortRule>, port: nat)
    ensures CoversListen(rules, "*", port) <==> AdmitsAll(rules, "*", port)
  {
    assert IsLoopback("localhost") && IsLoopback("127.0.0.1") && IsLoopback("::1");
    if AdmitsAll(rules, "*", port) {
      assert ListenHostMatches("*", "localhost") && ListenHostMatches("*", "127.0.0.1") && ListenHostMatches("*", "::1");
    }
  }

  lemma LiteralCovers(rules: seq<PortRule>, glob: string, port: nat)
    requires glob != "*" && !IsSuffixGlob(glob) && !IsPrefixGlob(glob)
    ensures CoversListen(rules, glob, port) <==> AdmitsAll(rules, glob, port)
  {
    assert forall host :: ListenHostMatches(glob, host) <==> host == glob;
  }

  lemma OpenGlobCovers(rules: seq<PortRule>, glob: string, port: nat)
    requires IsSuffixGlob(glob) || IsPrefixGlob(glob)
    ensures CoversListen(rules, glob, port) <==> AdmitsAll(rules, glob, port)
  {
    ProbeMatches(glob, 1);
    if CoversListen(rules, glob, port) {
      var p :| p in rules && p.portMin <= port <= p.portMax && GlobWithin(glob, p.hostGlob);
      forall host | ListenHostMatches(glob, host)
        ensures AdmitsListen(rules, host, port)
      {
        WithinAdmits(rules, p, glob, host, port);
      }
    } else {
      ProbeEscapes(rules, glob, port);
    }
  }

  /** Covering a glob on a port is exact, over all its hosts. */
  lemma CoversListenIff(rules: seq<PortRule>, glob: string, port: nat)
    ensures CoversListen(rules, glob, port) <==> AdmitsAll(rules, glob, port)
  {
    if glob == "*" {
      WildcardCovers(rules, port);
    } else if IsSuffixGlob(glob) || IsPrefixGlob(glob) {
      OpenGlobCovers(rules, glob, port);
    } else {
      LiteralCovers(rules, glob, port);
    }
  }

  lemma ProbeEscapes(rules: seq<PortRule>, glob: string, port: nat)
    requires (IsSuffixGlob(glob) || IsPrefixGlob(glob)) && !CoversListen(rules, glob, port)
    ensures exists host :: ListenHostMatches(glob, host) && !AdmitsListen(rules, host, port)
  {
    var n := Longest(rules) + 1;
    var host := Probe(glob, n);
    ProbeMatches(glob, n);
    forall p | p in rules
      ensures !ListenAdmits(p, host, port)
    {
      if ListenHostMatches(p.hostGlob, host) {
        LongestBounds(rules, p);
        ProbeWithin(glob, p.hostGlob, n);
      }
    }
    assert ListenHostMatches(glob, host) && !AdmitsListen(rules, host, port);
  }

  /** Every rule of the child is covered on each of its ports. */
  predicate RulesListenWithin(parent: seq<PortRule>, child: seq<PortRule>) {
    forall c, port: nat :: c in child && c.portMin <= port <= c.portMax ==> CoversListen(parent, c.hostGlob, port)
  }

  /** For any two rule lists this is exact, over all hosts and ports. */
  lemma RulesListenIff(parent: seq<PortRule>, child: seq<PortRule>)
    ensures (forall host, port: nat :: AdmitsListen(child, host, port) ==> AdmitsListen(parent, host, port))
       <==> RulesListenWithin(parent, child)
  {
    if RulesListenWithin(parent, child) {
      forall host, port: nat | AdmitsListen(child, host, port)
        ensures AdmitsListen(parent, host, port)
      {
        var c :| c in child && ListenAdmits(c, host, port);
        CoversListenIff(parent, c.hostGlob, port);
      }
    } else {
      var c, port: nat :| c in child && c.portMin <= port <= c.portMax && !CoversListen(parent, c.hostGlob, port);
      CoversListenIff(parent, c.hostGlob, port);
      var host :| ListenHostMatches(c.hostGlob, host) && !AdmitsListen(parent, host, port);
      assert ListenAdmits(c, host, port);
      assert AdmitsListen(child, host, port);
    }
  }

  /** What the child may listen on lies within what the parent may. */
  predicate ListensWithin(parent: Caps, child: Caps) {
    child.presence & TCP_LISTEN_CAP_BIT != 0 && child.tcp.Some? ==>
      parent.tcp.Some? && RulesListenWithin(parent.tcp.value, child.tcp.value)
  }

  /** Under a narrowing, listening attenuates on all hosts and ports exactly then. */
  lemma ListenAttenuatesIff(parent: Caps, child: Caps)
    requires IsNarrowing(parent, child)
    ensures (forall host, port: nat ::
               TcpListenPermits(child, host, port).Ok? ==> TcpListenPermits(parent, host, port).Ok?)
       <==> ListensWithin(parent, child)
  {
    if child.presence & TCP_LISTEN_CAP_BIT != 0 && child.tcp.Some? {
      ListenBitMonotone(parent.presence, child.presence);
      RulesListenIff(parent.tcp.value, child.tcp.value);
      assert forall host, port: nat :: TcpListenPermits(child, host, port).Ok? <==> AdmitsListen(child.tcp.value, host, port);
      assert forall host, port: nat :: TcpListenPermits(parent, host, port).Ok? <==> AdmitsListen(parent.tcp.value, host, port);
    }
  }

  /** Capabilities to connect and listen by one rule. */
  function ListenBy(rule: PortRule): Caps {
    Caps(0x82, None, Some([rule]), None, None, None, None, None)
  }

  lemma ListenByNarrows(parent: PortRule, child: PortRule)
    requires PortRuleCovers(parent, child)
    ensures Canonical(ListenBy(parent)) && Canonical(ListenBy(child)) && IsNarrowing(ListenBy(parent), ListenBy(child))
  {
    assert parent in [parent];
  }

  lemma ListenByPermits(rule: PortRule, host: string, port: nat)
    ensures TcpListenPermits(ListenBy(rule), host, port).Ok? <==> ListenAdmits(rule, host, port)
  {
    assert rule in [rule];
  }

  /** The gap is real: under a wildcard parent a narrower child may listen where the parent may not. */
  lemma ListenGap()
    ensures exists parent, child ::
              && Canonical(parent) && Canonical(child) && IsNarrowing(parent, child)
              && TcpListenPermits(child, "0.0.0.0", 80).Ok?
              && TcpListenPermits(parent, "0.0.0.0", 80).Err?
  {
    var wide, narrow := PortRule("*", 0, 65535), PortRule("0.0.0.0", 80, 80);
    ListenByNarrows(wide, narrow);
    ListenByPermits(wide, "0.0.0.0", 80);
    ListenByPermits(narrow, "0.0.0.0", 80);
    assert !EndsWith("0.0.0.0", ".*") && !IsLoopback("0.0.0.0");
  }

  // ---------- All requests ----------

  datatype Request =
    | ShellRequest(req: ShellReq)
    | TcpConnect(host: string, port: nat)
    | TcpListen(host: string, port: nat)
    | UdpForward(host: string, lo: nat, hi: nat)
    | UnixSocket(listen: bool, path: string)

  predicate Permits(caps: Caps, r: Request) {
    match r
    case ShellRequest(req) => ShellPermits(caps, req).Ok?
    case TcpConnect(host, port) => TcpPermits(caps, host, port).Ok?
    case TcpListen(host, port) => TcpListenPermits(caps, host, port).Ok?
    case UdpForward(host, lo, hi) => UdpPermits(caps, host, lo, hi).Ok?
    case UnixSocket(listen, path) => UnixPermits(caps, listen, path).Ok?
  }

  /** Every request but a TCP listen on a host other than loopback. */
  predicate Attenuable(r: Request) {
    r.TcpListen? ==> IsLoopback(r.host)
  }

  lemma Attenuation(parent: Caps, child: Caps, r: Request)
    requires IsNarrowing(parent, child) && Permits(child, r) && Attenuable(r)
    ensures Permits(parent, r)
  {
    match r
    case ShellRequest(req) => ShellAttenuates(parent, child, req);
    case TcpConnect(host, port) => ConnectAttenuates(parent.tcp.value, child.tcp.value, host, port, port);
    case TcpListen(host, port) =>
      ListenBitMonotone(parent.presence, child.presence);
      ListenAttenuates(parent.tcp.value, child.tcp.value, host, port);
    case UdpForward(host, lo, hi) => ConnectAttenuates(parent.udp.value, child.udp.value, host, lo, hi);
    case UnixSocket(listen, path) =>
      if listen {
        UnixAttenuates(parent.unix.value.listen, child.unix.value.listen, path);
      } else {
        UnixAttenuates(parent.unix.value.connect, child.unix.value.connect, path);
      }
  }
}
