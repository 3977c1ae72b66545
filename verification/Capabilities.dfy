/**
 * Ticket capabilities and the syntactic narrowing order on them. A string of
 * the original is its UTF-8 bytes, one char per byte.
 */
module Capabilities {
  import opened Prelude

  datatype PortRule = PortRule(hostGlob: string, portMin: nat, portMax: nat)

  datatype EnvPolicy = Deny | Merge(allow: Option<seq<string>>) | Replace(base: seq<(string, string)>)

  datatype ShellCaps = ShellCaps(
    userAllowlist: Option<seq<string>>,
    ptyAllowed: bool,
    execAllowed: bool,
    commandAllowlist: Option<seq<string>>,
    envPolicy: EnvPolicy)

  datatype FsCaps = FsCaps(roots: seq<string>, readonly: bool, maxSize: Option<nat>)

  datatype VpnCaps = VpnCaps(myUla: seq<byte>, peerUla: seq<byte>, mtu: nat)

  datatype MetaCaps = MetaCaps(ping: bool, info: bool)

  /** The rules are the paths of the original's `UnixPathRule`. */
  datatype UnixCaps = UnixCaps(connect: seq<string>, listen: seq<string>)

  datatype Caps = Caps(
    presence: bv8,
    shell: Option<ShellCaps>,
    tcp: Option<seq<PortRule>>,
    udp: Option<seq<PortRule>>,
    fs: Option<FsCaps>,
    vpn: Option<VpnCaps>,
    meta: Option<MetaCaps>,
    unix: Option<UnixCaps>)

  const TCP_LISTEN_CAP_BIT: bv8 := 0x80

  // ---------- Unix path rules ----------

  /** A `..` component. The path iterator of the original drops interior `.` components, so those pass. */
  predicate DotDotAt(path: string, i: nat) {
    && i + 2 <= |path| && path[i] == '.' && path[i + 1] == '.'
    && (i == 0 || path[i - 1] == '/')
    && (i + 2 == |path| || path[i + 2] == '/')
  }

  predicate SafePath(path: string) {
    && path != "" && path[0] == '/'
    && (forall i :: 0 <= i < |path| ==> path[i] != '\0')
    && (forall i :: 0 <= i < |path| ==> !DotDotAt(path, i))
  }

  predicate NarrowGlob(prefix: string) {
    "/" <= prefix && |prefix| >= 6 && prefix != "/tmp/" && prefix != "/var/"
  }

  predicate IsGlob(rule: string) {
    rule != "" && rule[|rule| - 1] == '*'
  }

  function GlobPrefix(rule: string): string
    requires IsGlob(rule)
  {
    rule[..|rule| - 1]
  }

  predicate ValidRule(rule: string) {
    rule != "" &&
    (rule == "*" || if IsGlob(rule) then SafePath(GlobPrefix(rule)) && NarrowGlob(GlobPrefix(rule)) else SafePath(rule))
  }

  predicate MatchesPath(rule: string, path: string) {
    SafePath(path) &&
    if rule == "*" then true
    else if IsGlob(rule) then NarrowGlob(GlobPrefix(rule)) && GlobPrefix(rule) <= path
    else rule == path
  }

  predicate RuleCovers(parent: string, child: string) {
    ValidRule(parent) && ValidRule(child) &&
    if parent == "*" || parent == child then true
    else if !IsGlob(parent) then false
    else if IsGlob(child) then NarrowGlob(GlobPrefix(parent)) && GlobPrefix(parent) <= GlobPrefix(child)
    else MatchesPath(parent, child)
  }

  // ---------- Narrowing ----------

  predicate Subset(child: seq<string>, parent: seq<string>) {
    forall e :: e in child ==> e in parent
  }

  predicate AllowlistNarrows(parent: Option<seq<string>>, child: Option<seq<string>>) {
    match (parent, child)
    case (_, None) => parent.None?
    case (None, Some(_)) => true
    case (Some(p), Some(c)) => Subset(c, p)
  }

  predicate EnvPolicyNarrows(parent: EnvPolicy, child: EnvPolicy) {
    match (parent, child)
    case (_, Deny) => true
    case (Merge(None), Merge(_)) => true
    case (Merge(Some(p)), Merge(Some(c))) => Subset(c, p)
    case (Replace(p), Replace(c)) => p == c
    case _ => false
  }

  predicate BoolNarrows(parent: bool, child: bool) {
    !child || parent
  }

  predicate ShellNarrows(parent: ShellCaps, child: ShellCaps) {
    && AllowlistNarrows(parent.userAllowlist, child.userAllowlist)
    && AllowlistNarrows(parent.commandAllowlist, child.commandAllowlist)
    && BoolNarrows(parent.ptyAllowed, child.ptyAllowed)
    && BoolNarrows(parent.execAllowed, child.execAllowed)
    && EnvPolicyNarrows(parent.envPolicy, child.envPolicy)
  }

  predicate HostGlobCovers(parent: string, child: string) {
    parent == "*" || parent == child
  }

  predicate PortRuleCovers(parent: PortRule, child: PortRule) {
    && HostGlobCovers(parent.hostGlob, child.hostGlob)
    && parent.portMin <= child.portMin && parent.portMax >= child.portMax
  }

  predicate PortRulesNarrow(parent: seq<PortRule>, child: seq<PortRule>) {
    forall c :: c in child ==> exists p :: p in parent && PortRuleCovers(p, c)
  }

  predicate PathRootCovers(parent: string, child: string) {
    child == parent || parent == "/" || (parent <= child && "/" <= child[|parent|..])
  }

  predicate RootsNarrow(parent: seq<string>, child: seq<string>) {
    forall c :: c in child ==> exists p :: p in parent && PathRootCovers(p, c)
  }

  predicate MaxSizeNarrows(parent: Option<nat>, child: Option<nat>) {
    match (parent, child)
    case (_, None) => parent.None?
    case (None, Some(_)) => true
    case (Some(p), Some(c)) => c <= p
  }

  predicate FsNarrows(parent: FsCaps, child: FsCaps) {
    && RootsNarrow(parent.roots, child.roots)
    && (!parent.readonly || child.readonly)
    && MaxSizeNarrows(parent.maxSize, child.maxSize)
  }

  predicate VpnNarrows(parent: VpnCaps, child: VpnCaps) {
    parent.myUla == child.myUla && parent.peerUla == child.peerUla && child.mtu <= parent.mtu
  }

  predicate MetaNarrows(parent: MetaCaps, child: MetaCaps) {
    BoolNarrows(parent.ping, child.ping) && BoolNarrows(parent.info, child.info)
  }

  predicate UnixRulesNarrow(parent: seq<string>, child: seq<string>) {
    forall c :: c in child ==> exists p :: p in parent && RuleCovers(p, c)
  }

  predicate UnixNarrows(parent: UnixCaps, child: UnixCaps) {
    UnixRulesNarrow(parent.connect, child.connect) && UnixRulesNarrow(parent.listen, child.listen)
  }

  predicate PresenceNarrows(parent: bv8, child: bv8) {
    child & !parent == 0
  }

  predicate IsNarrowing(parent: Caps, child: Caps) {
    && PresenceNarrows(parent.presence, child.presence)
    && (child.shell.Some? ==> parent.shell.Some? && ShellNarrows(parent.shell.value, child.shell.value))
    && (child.tcp.Some? ==> parent.tcp.Some? && PortRulesNarrow(parent.tcp.value, child.tcp.value))
    && (child.udp.Some? ==> parent.udp.Some? && PortRulesNarrow(parent.udp.value, child.udp.value))
    && (child.fs.Some? ==> parent.fs.Some? && FsNarrows(parent.fs.value, child.fs.value))
    && (child.vpn.Some? ==> parent.vpn.Some? && VpnNarrows(parent.vpn.value, child.vpn.value))
    && (child.meta.Some? ==> parent.meta.Some? && MetaNarrows(parent.meta.value, child.meta.value))
    && (child.unix.Some? ==> parent.unix.Some? && UnixNarrows(parent.unix.value, child.unix.value))
  }

  // ---------- Narrowing is transitive ----------

  lemma PortRulesTransitive(a: seq<PortRule>, b: seq<PortRule>, c: seq<PortRule>)
    requires PortRulesNarrow(a, b) && PortRulesNarrow(b, c)
    ensures PortRulesNarrow(a, c)
  {
    forall z | z in c
      ensures exists x :: x in a && PortRuleCovers(x, z)
    {
      var y :| y in b && PortRuleCovers(y, z);
      var x :| x in a && PortRuleCovers(x, y);
      assert PortRuleCovers(x, z);
    }
  }

  lemma RuleCoversTransitive(a: string, b: string, c: string)
    requires RuleCovers(a, b) && RuleCovers(b, c)
    ensures RuleCovers(a, c)
  {
  }

  lemma UnixRulesTransitive(a: seq<string>, b: seq<string>, c: seq<string>)
    requires UnixRulesNarrow(a, b) && UnixRulesNarrow(b, c)
    ensures UnixRulesNarrow(a, c)
  {
    forall z | z in c
      ensures exists x :: x in a && RuleCovers(x, z)
    {
      var y :| y in b && RuleCovers(y, z);
      var x :| x in a && RuleCovers(x, y);
      RuleCoversTransitive(x, y, z);
    }
  }

  lemma PathRootTransitive(a: string, b: string, c: string)
    requires PathRootCovers(a, b) && PathRootCovers(b, c) && a != ""
    ensures PathRootCovers(a, c)
  {
    if a != "/" && a != b && b != c {
      assert b[|a|..] != "";
      assert b != "/";
      assert c[|a|..] == b[|a|..] + c[|b|..];
    }
  }

  /** The filesystem roots from which narrowing composes: no empty root, unless "/" is there to cover for it. */
  predicate RootsCompose(roots: seq<string>) {
    "" in roots ==> "/" in roots
  }

  lemma RootsTransitive(a: seq<string>, b: seq<string>, c: seq<string>)
    requires RootsNarrow(a, b) && RootsNarrow(b, c) && RootsCompose(a)
    ensures RootsNarrow(a, c)
  {
    forall z | z in c
      ensures exists x :: x in a && PathRootCovers(x, z)
    {
      var y :| y in b && PathRootCovers(y, z);
      var x :| x in a && PathRootCovers(x, y);
      if x == "" {
        assert PathRootCovers("/", z);
      } else {
        PathRootTransitive(x, y, z);
      }
    }
  }

  lemma ShellTransitive(a: ShellCaps, b: ShellCaps, c: ShellCaps)
    requires ShellNarrows(a, b) && ShellNarrows(b, c)
    ensures ShellNarrows(a, c)
  {
  }

  lemma PresenceTransitive(a: bv8, b: bv8, c: bv8)
    requires PresenceNarrows(a, b) && PresenceNarrows(b, c)
    ensures PresenceNarrows(a, c)
  {
  }

  predicate FsComposes(c: Caps) {
    c.fs.Some? ==> RootsCompose(c.fs.value.roots)
  }

  lemma NarrowingTransitive(a: Caps, b: Caps, c: Caps)
    requires IsNarrowing(a, b) && IsNarrowing(b, c) && FsComposes(a)
    ensures IsNarrowing(a, c)
  {
    PresenceTransitive(a.presence, b.presence, c.presence);
    if c.shell.Some? { ShellTransitive(a.shell.value, b.shell.value, c.shell.value); }
    if c.tcp.Some? { PortRulesTransitive(a.tcp.value, b.tcp.value, c.tcp.value); }
    if c.udp.Some? { PortRulesTransitive(a.udp.value, b.udp.value, c.udp.value); }
    if c.fs.Some? { RootsTransitive(a.fs.value.roots, b.fs.value.roots, c.fs.value.roots); }
    if c.unix.Some? {
      UnixRulesTransitive(a.unix.value.connect, b.unix.value.connect, c.unix.value.connect);
      UnixRulesTransitive(a.unix.value.listen, b.unix.value.listen, c.unix.value.listen);
    }
  }

  // ---------- Canonical capabilities ----------

  predicate StringLess(a: string, b: string) {
    b != "" && (a == "" || a[0] < b[0] || (a[0] == b[0] && StringLess(a[1..], b[1..])))
  }

  predicate PortRuleLess(a: PortRule, b: PortRule) {
    || StringLess(a.hostGlob, b.hostGlob)
    || (a.hostGlob == b.hostGlob && (a.portMin < b.portMin || (a.portMin == b.portMin && a.portMax < b.portMax)))
  }

  predicate Sorted<T>(s: seq<T>, less: (T, T) -> bool) {
    forall i :: 0 < i < |s| ==> less(s[i - 1], s[i])
  }

  predicate SortedStrings(s: seq<string>) {
    Sorted(s, (a, b) => StringLess(a, b))
  }

  predicate SortedShell(s: ShellCaps) {
    && (s.userAllowlist.Some? ==> SortedStrings(s.userAllowlist.value))
    && (s.commandAllowlist.Some? ==> SortedStrings(s.commandAllowlist.value))
    && (s.envPolicy.Merge? && s.envPolicy.allow.Some? ==> SortedStrings(s.envPolicy.allow.value))
    && (s.envPolicy.Replace? ==>
          Sorted(s.envPolicy.base, (a: (string, string), b: (string, string)) => StringLess(a.0, b.0)))
  }

  function Bit(present: bool, bit: bv8): bv8 {
    if present then bit else 0
  }

  /** A bit for every family that is there, and the listen bit only with TCP. */
  predicate PresenceMatches(c: Caps) {
    && c.presence == Bit(c.shell.Some?, 1) | Bit(c.tcp.Some?, 2) | Bit(c.udp.Some?, 4) | Bit(c.fs.Some?, 8)
                   | Bit(c.vpn.Some?, 16) | Bit(c.meta.Some?, 32) | Bit(c.unix.Some?, 64)
                   | (c.presence & TCP_LISTEN_CAP_BIT)
    && (c.presence & TCP_LISTEN_CAP_BIT != 0 ==> c.tcp.Some?)
  }

  predicate UnixRulesCanonical(rules: seq<string>) {
    (forall r :: r in rules ==> ValidRule(r)) && SortedStrings(rules)
  }

  /** What the canonical check asks of capabilities before they are ever compared. */
  predicate Canonical(c: Caps) {
    && PresenceMatches(c)
    && (c.tcp.Some? ==> Sorted(c.tcp.value, (a, b) => PortRuleLess(a, b)))
    && (c.udp.Some? ==> Sorted(c.udp.value, (a, b) => PortRuleLess(a, b)))
    && (c.fs.Some? ==> SortedStrings(c.fs.value.roots))
    && (c.shell.Some? ==> SortedShell(c.shell.value))
    && (c.unix.Some? ==> UnixRulesCanonical(c.unix.value.connect) && UnixRulesCanonical(c.unix.value.listen))
  }

  // The one gap: an empty root covers "/", which covers every relative path,
  // none of which the empty root covers.

  function OneRoot(root: string): Caps {
    Caps(8, None, None, None, Some(FsCaps([root], true, Some(0))), None, None, None)
  }

  lemma OneRootCanonical(root: string)
    ensures Canonical(OneRoot(root))
  {
  }

  lemma FsBitSet(c: Caps)
    requires PresenceMatches(c) && c.fs.Some?
    ensures PresenceNarrows(c.presence, 8)
  {
  }

  /** A relative path longer than every root of the list. */
  function Outsider(roots: seq<string>): (x: string)
    ensures x != "" && (forall i :: 0 <= i < |x| ==> x[i] == 'x')
    ensures forall r :: r in roots ==> |r| < |x|
  {
    if roots == [] then "x"
    else
      var x := Outsider(roots[1..]);
      if |roots[0]| < |x| then x else x + seq(|roots[0]| + 1, _ => 'x')
  }

  lemma OutsiderUncovered(roots: seq<string>)
    requires !RootsCompose(roots)
    ensures !RootsNarrow(roots, [Outsider(roots)])
  {
    var x := Outsider(roots);
    assert x in [x];
    forall r | r in roots
      ensures !PathRootCovers(r, x)
    {
      assert r <= x ==> x[|r|..][0] == x[|r|];
    }
  }

  lemma NarrowsToSlash(a: Caps)
    requires PresenceMatches(a) && a.fs.Some? && "" in a.fs.value.roots
    ensures IsNarrowing(a, OneRoot("/"))
  {
    FsBitSet(a);
    assert PathRootCovers("", "/") by { assert "/"[|""|..] == "/"; }
    assert FsNarrows(a.fs.value, OneRoot("/").fs.value);
  }

  lemma SlashNarrowsTo(root: string)
    ensures IsNarrowing(OneRoot("/"), OneRoot(root))
  {
    assert "/" in ["/"] && PathRootCovers("/", root);
    assert FsNarrows(OneRoot("/").fs.value, OneRoot(root).fs.value);
  }

  /** Canonical capabilities whose roots do not compose start two narrowings, all canonical, that do not either. */
  lemma RootGap(a: Caps)
    requires Canonical(a) && !FsComposes(a)
    ensures exists b, c ::
              Canonical(b) && Canonical(c) && IsNarrowing(a, b) && IsNarrowing(b, c) && !IsNarrowing(a, c)
  {
    var roots := a.fs.value.roots;
    var b, c := OneRoot("/"), OneRoot(Outsider(roots));
    OneRootCanonical("/");
    OneRootCanonical(Outsider(roots));
    NarrowsToSlash(a);
    SlashNarrowsTo(Outsider(roots));
    OutsiderUncovered(roots);
    assert !IsNarrowing(a, c);
  }

  /** Below canonical capabilities narrowing composes, among canonical ones, exactly when their roots do. */
  lemma NarrowingTransitiveIff(a: Caps)
    requires Canonical(a)
    ensures (forall b, c ::
               Canonical(b) && Canonical(c) && IsNarrowing(a, b) && IsNarrowing(b, c) ==> IsNarrowing(a, c))
       <==> FsComposes(a)
  {
    if FsComposes(a) {
      forall b, c | Canonical(b) && Canonical(c) && IsNarrowing(a, b) && IsNarrowing(b, c)
        ensures IsNarrowing(a, c)
      {
        NarrowingTransitive(a, b, c);
      }
    } else {
      RootGap(a);
    }
  }
}
