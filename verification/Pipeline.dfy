/**
 * Evaluation of a ticket offer: decoding, the delegation chain, revocation,
 * validity windows and proof of possession.
 */
module Pipeline {
  import opened Prelude
  import opened Capabilities
  import opened Enforcement

  type Key = seq<byte>
  type Sig = seq<byte>
  type TicketId = seq<byte>

  const MAX_DELEGATION_DEPTH: nat := 8
  const CLOCK_SKEW_SECS: nat := 60
  const MAX_TTL_SECONDS: nat := 365 * 24 * 60 * 60

  datatype Delegation = Delegation(parentTicketId: TicketId, depthRemaining: byte)

  /** `extra` stands for the fields that only the signature and the canonical form look at. */
  datatype Body = Body(
    caps: Caps,
    notBefore: nat,
    notAfter: nat,
    issuer: Option<Key>,
    parent: Option<Delegation>,
    bearer: Option<seq<byte>>,
    to: Option<Key>,
    extra: seq<byte>)

  datatype Ticket = Ticket(v: byte, endpoint: Key, body: Body, sig: Sig)

  datatype Offer = Offer(ticket: seq<byte>, chain: seq<seq<byte>>, proof: Option<Sig>, clientNonce: seq<byte>)

  datatype AckReason =
    | RateLimited | BadChain | BadSignature | CapsExceedParent | NotYetValid | Expired
    | Revoked | ProofMissing | ProofInvalid | InternalError(detail: string)

  datatype AgentMode = Listener | Gateway

  /**
   * Serialisation, hashing, signatures, and the rules of the canonical form about fields
   * that nothing else here looks at: any functions at all.
   */
  datatype Primitives = Primitives(
    fromBytes: seq<byte> -> Option<Ticket>,
    toBytes: Ticket -> Option<seq<byte>>,
    otherRules: Ticket -> bool,
    verifyBody: (Key, Body, Sig) -> bool,
    verifyPop: (Key, TicketId, seq<byte>, Sig) -> bool,
    ticketId: Sig -> TicketId,
    parentTicketId: Sig -> TicketId,
    peerToken: (seq<byte>, TicketId) -> seq<byte>)

  /** The canonical form: capabilities, times, bearer and issuer, and the other rules. */
  predicate CanonicalTicket(p: Primitives, t: Ticket) {
    && Canonical(t.body.caps)
    && t.body.notBefore < t.body.notAfter && t.body.notAfter - t.body.notBefore <= MAX_TTL_SECONDS
    && t.body.bearer != Some([]) && t.body.issuer != Some(t.endpoint)
    && p.otherRules(t)
  }

  function ResolvedIssuer(t: Ticket): Key {
    if t.body.issuer.Some? then t.body.issuer.value else t.endpoint
  }

  // ---------- The chain, as the original checks it ----------

  datatype VerifiedChain = VerifiedChain(caps: Caps, rootIssuer: Key)

  function CheckTicket(p: Primitives, t: Ticket, target: Key): Option<AckReason> {
    if !CanonicalTicket(p, t) then Some(BadSignature)
    else if t.v != 1 then Some(BadChain)
    else if t.endpoint != target then Some(BadChain)
    else None
  }

  /** First complaint about a ticket from index i on. */
  function CheckTickets(p: Primitives, all: seq<Ticket>, target: Key, i: nat): Option<AckReason>
    requires i <= |all|
    decreases |all| - i
  {
    if i == |all| then None
    else
      var r := CheckTicket(p, all[i], target);
      if r.Some? then r else CheckTickets(p, all, target, i + 1)
  }

  function CheckRoot(p: Primitives, root: Ticket, roots: set<Key>): Option<AckReason> {
    if root.body.parent.Some? then Some(BadChain)
    else if ResolvedIssuer(root) !in roots then Some(BadChain)
    else if !p.verifyBody(ResolvedIssuer(root), root.body, root.sig) then Some(BadSignature)
    else None
  }

  function ExpectedDepth(parent: Ticket): Option<nat> {
    if parent.body.parent.None? then Some(MAX_DELEGATION_DEPTH - 1)
    else if parent.body.parent.value.depthRemaining == 0 then None
    else Some(parent.body.parent.value.depthRemaining - 1)
  }

  predicate WindowWithin(parent: Ticket, child: Ticket) {
    parent.body.notBefore <= child.body.notBefore && child.body.notAfter <= parent.body.notAfter
  }

  function CheckLink(p: Primitives, parent: Ticket, child: Ticket): Option<AckReason> {
    if child.body.parent.None? then Some(BadChain)
    else if !p.verifyBody(ResolvedIssuer(parent), child.body, child.sig) then Some(BadSignature)
    else if ResolvedIssuer(child) != ResolvedIssuer(parent) then Some(BadChain)
    else if child.body.parent.value.parentTicketId != p.parentTicketId(parent.sig) then Some(BadChain)
    else if !IsNarrowing(parent.body.caps, child.body.caps) then Some(CapsExceedParent)
    else if !WindowWithin(parent, child) then Some(BadChain)
    else if ExpectedDepth(parent) != Some(child.body.parent.value.depthRemaining) then Some(BadChain)
    else None
  }

  /** First complaint about a link from the one that ends at index i on. */
  function CheckLinks(p: Primitives, all: seq<Ticket>, i: nat): Option<AckReason>
    requires 1 <= i <= |all|
    decreases |all| - i
  {
    if i == |all| then None
    else
      var r := CheckLink(p, all[i - 1], all[i]);
      if r.Some? then r else CheckLinks(p, all, i + 1)
  }

  function VerifyChain(p: Primitives, all: seq<Ticket>, roots: set<Key>): Result<VerifiedChain, AckReason>
    requires all != []
  {
    if |all| > MAX_DELEGATION_DEPTH + 1 then Err(BadChain) else
    var bad := CheckTickets(p, all, all[0].endpoint, 0);
    if bad.Some? then Err(bad.value) else
    var badRoot := CheckRoot(p, all[0], roots);
    if badRoot.Some? then Err(badRoot.value) else
    var badLink := CheckLinks(p, all, 1);
    if badLink.Some? then Err(badLink.value) else
    Ok(VerifiedChain(all[|all| - 1].body.caps, ResolvedIssuer(all[0])))
  }

  method VerifyChainWithoutTime(p: Primitives, terminal: Ticket, chain: seq<Ticket>, roots: set<Key>)
    returns (r: Result<VerifiedChain, AckReason>)
    ensures r == VerifyChain(p, chain + [terminal], roots)
  {
    var all := chain + [terminal];
    if |all| > MAX_DELEGATION_DEPTH + 1 {
      return Err(BadChain);
    }
    var target := all[0].endpoint;
    for i := 0 to |all|
      invariant CheckTickets(p, all, target, 0) == CheckTickets(p, all, target, i)
    {
      var complaint := CheckTicket(p, all[i], target);
      if complaint.Some? {
        return Err(complaint.value);
      }
    }
    var root := all[0];
    var badRoot := CheckRoot(p, root, roots);
    if badRoot.Some? {
      return Err(badRoot.value);
    }
    var parent := root;
    for i := 1 to |all|
      invariant parent == all[i - 1]
      invariant CheckLinks(p, all, 1) == CheckLinks(p, all, i)
    {
      var child := all[i];
      var complaint := CheckLink(p, parent, child);
      if complaint.Some? {
        return Err(complaint.value);
      }
      parent := child;
    }
    return Ok(VerifiedChain(terminal.body.caps, ResolvedIssuer(root)));
  }

  // ---------- The chain, as a property of all tickets ----------

  /** Ticket i below a root with key k: same target, same authority, signed by it, one depth less per hop. */
  predicate TicketHolds(p: Primitives, all: seq<Ticket>, i: nat)
    requires i < |all|
  {
    var k := ResolvedIssuer(all[0]);
    && CanonicalTicket(p, all[i]) && all[i].v == 1 && all[i].endpoint == all[0].endpoint
    && ResolvedIssuer(all[i]) == k
    && p.verifyBody(k, all[i].body, all[i].sig)
    && (i == 0 <==> all[i].body.parent.None?)
    && (i > 0 ==> all[i].body.parent.value.depthRemaining == MAX_DELEGATION_DEPTH - i)
  }

  /** Ticket i refers to ticket i - 1 and grants no more for no longer. */
  predicate LinkHolds(p: Primitives, all: seq<Ticket>, i: nat)
    requires 0 < i < |all|
  {
    && all[i].body.parent.Some?
    && all[i].body.parent.value.parentTicketId == p.parentTicketId(all[i - 1].sig)
    && IsNarrowing(all[i - 1].body.caps, all[i].body.caps)
    && WindowWithin(all[i - 1], all[i])
  }

  /** The quantified chain predicate. It has no length bound: the depth countdown implies one. */
  ghost predicate ChainHolds(p: Primitives, all: seq<Ticket>, roots: set<Key>)
    requires all != []
  {
    && ResolvedIssuer(all[0]) in roots
    && (forall i :: 0 <= i < |all| ==> TicketHolds(p, all, i))
    && (forall i :: 0 < i < |all| ==> LinkHolds(p, all, i))
  }

  lemma {:induction false} CheckTicketsIff(p: Primitives, all: seq<Ticket>, target: Key, i: nat)
    requires i <= |all|
    ensures CheckTickets(p, all, target, i).None?
       <==> forall j :: i <= j < |all| ==> CheckTicket(p, all[j], target).None?
    decreases |all| - i
  {
    if i < |all| {
      CheckTicketsIff(p, all, target, i + 1);
    }
  }

  lemma {:induction false} CheckLinksIff(p: Primitives, all: seq<Ticket>, i: nat)
    requires 1 <= i <= |all|
    ensures CheckLinks(p, all, i).None?
       <==> forall j :: i <= j < |all| ==> CheckLink(p, all[j - 1], all[j]).None?
    decreases |all| - i
  {
    if i < |all| {
      CheckLinksIff(p, all, i + 1);
    }
  }

  /** Links that all pass carry the root's key and the countdown down the chain. */
  lemma {:induction false} LinksImplyTicket(p: Primitives, all: seq<Ticket>, roots: set<Key>, i: nat)
    requires i < |all|
    requires forall j :: 0 <= j < |all| ==> CheckTicket(p, all[j], all[0].endpoint).None?
    requires CheckRoot(p, all[0], roots).None?
    requires forall j :: 1 <= j < |all| ==> CheckLink(p, all[j - 1], all[j]).None?
    ensures TicketHolds(p, all, i)
  {
    assert CheckTicket(p, all[i], all[0].endpoint).None?;
    if i > 0 {
      LinksImplyTicket(p, all, roots, i - 1);
      assert CheckLink(p, all[i - 1], all[i]).None?;
    }
  }

  lemma TicketsImplyLink(p: Primitives, all: seq<Ticket>, i: nat)
    requires 0 < i < |all|
    requires TicketHolds(p, all, i - 1) && TicketHolds(p, all, i) && LinkHolds(p, all, i)
    ensures CheckLink(p, all[i - 1], all[i]).None?
  {
  }

  /** A chain that counts down from the maximum cannot be longer than it. */
  lemma CountdownBoundsLength(p: Primitives, all: seq<Ticket>, roots: set<Key>)
    requires all != [] && ChainHolds(p, all, roots)
    ensures |all| <= MAX_DELEGATION_DEPTH + 1
  {
    assert TicketHolds(p, all, |all| - 1);
  }

  /** The checks pass exactly when the chain predicate holds. */
  lemma VerifyChainIff(p: Primitives, all: seq<Ticket>, roots: set<Key>)
    requires all != []
    ensures VerifyChain(p, all, roots).Ok? <==> ChainHolds(p, all, roots)
  {
    CheckTicketsIff(p, all, all[0].endpoint, 0);
    CheckLinksIff(p, all, 1);
    if VerifyChain(p, all, roots).Ok? {
      VerifiedChainHolds(p, all, roots);
    }
    if ChainHolds(p, all, roots) {
      ChainPassesChecks(p, all, roots);
    }
  }

  lemma VerifiedChainHolds(p: Primitives, all: seq<Ticket>, roots: set<Key>)
    requires all != []
    requires forall j :: 0 <= j < |all| ==> CheckTicket(p, all[j], all[0].endpoint).None?
    requires CheckRoot(p, all[0], roots).None?
    requires forall j :: 1 <= j < |all| ==> CheckLink(p, all[j - 1], all[j]).None?
    ensures ChainHolds(p, all, roots)
  {
    forall i | 0 <= i < |all|
      ensures TicketHolds(p, all, i)
    {
      LinksImplyTicket(p, all, roots, i);
    }
    forall i | 0 < i < |all|
      ensures LinkHolds(p, all, i)
    {
      assert CheckLink(p, all[i - 1], all[i]).None?;
    }
  }

  lemma ChainPassesChecks(p: Primitives, all: seq<Ticket>, roots: set<Key>)
    requires all != [] && ChainHolds(p, all, roots)
    ensures |all| <= MAX_DELEGATION_DEPTH + 1
    ensures forall j :: 0 <= j < |all| ==> CheckTicket(p, all[j], all[0].endpoint).None?
    ensures CheckRoot(p, all[0], roots).None?
    ensures forall j :: 1 <= j < |all| ==> CheckLink(p, all[j - 1], all[j]).None?
  {
    CountdownBoundsLength(p, all, roots);
    assert TicketHolds(p, all, 0);
    forall j | 0 <= j < |all|
      ensures CheckTicket(p, all[j], all[0].endpoint).None?
    {
      assert TicketHolds(p, all, j);
    }
    forall j | 1 <= j < |all|
      ensures CheckLink(p, all[j - 1], all[j]).None?
    {
      TicketsImplyLink(p, all, j);
    }
  }

  // ---------- Consequences along the chain ----------

  /** Whatever a ticket of the chain permits, every ancestor permits. */
  lemma {:induction false} ChainAttenuates(p: Primitives, all: seq<Ticket>, roots: set<Key>, i: nat, j: nat, r: Request)
    requires i <= j < |all| && ChainHolds(p, all, roots)
    requires Permits(all[j].body.caps, r) && Attenuable(r)
    ensures Permits(all[i].body.caps, r)
    decreases j
  {
    if i < j {
      assert LinkHolds(p, all, j);
      Attenuation(all[j - 1].body.caps, all[j].body.caps, r);
      ChainAttenuates(p, all, roots, i, j - 1, r);
    }
  }

  /** Along links that all keep what may be listened on, so does a listen on any host. */
  lemma {:induction false} ChainListens(p: Primitives, all: seq<Ticket>, roots: set<Key>, i: nat, j: nat,
                                        host: string, port: nat)
    requires i <= j < |all| && ChainHolds(p, all, roots)
    requires forall k :: i < k <= j ==> ListensWithin(all[k - 1].body.caps, all[k].body.caps)
    requires TcpListenPermits(all[j].body.caps, host, port).Ok?
    ensures TcpListenPermits(all[i].body.caps, host, port).Ok?
    decreases j
  {
    if i < j {
      assert LinkHolds(p, all, j);
      ListenAttenuatesIff(all[j - 1].body.caps, all[j].body.caps);
      ChainListens(p, all, roots, i, j - 1, host, port);
    }
  }

  /** The terminal capabilities narrow those of any ancestor whose filesystem roots compose. */
  lemma {:induction false} ChainNarrows(p: Primitives, all: seq<Ticket>, roots: set<Key>, i: nat, j: nat)
    requires i < j < |all| && ChainHolds(p, all, roots) && FsComposes(all[i].body.caps)
    ensures IsNarrowing(all[i].body.caps, all[j].body.caps)
    decreases j
  {
    assert LinkHolds(p, all, j);
    if i < j - 1 {
      ChainNarrows(p, all, roots, i, j - 1);
      NarrowingTransitive(all[i].body.caps, all[j - 1].body.caps, all[j].body.caps);
    }
  }

  /**
   * Below a ticket of a valid chain every two canonical narrowings compose exactly when its
   * roots do; the capabilities of the whole chain are canonical.
   */
  lemma ChainComposesIff(p: Primitives, all: seq<Ticket>, roots: set<Key>, i: nat)
    requires i < |all| && ChainHolds(p, all, roots)
    ensures Canonical(all[i].body.caps)
    ensures (forall b, c ::
               Canonical(b) && Canonical(c) && IsNarrowing(all[i].body.caps, b) && IsNarrowing(b, c) ==>
                 IsNarrowing(all[i].body.caps, c))
       <==> FsComposes(all[i].body.caps)
  {
    assert TicketHolds(p, all, i);
    NarrowingTransitiveIff(all[i].body.caps);
  }

  lemma {:induction false} ChainWindows(p: Primitives, all: seq<Ticket>, roots: set<Key>, i: nat, j: nat)
    requires i <= j < |all| && ChainHolds(p, all, roots)
    ensures WindowWithin(all[i], all[j])
    decreases j
  {
    if i < j {
      assert LinkHolds(p, all, j);
      ChainWindows(p, all, roots, i, j - 1);
    }
  }

  // ---------- Validity windows ----------

  function CheckWindow(t: Ticket, now: nat): Option<AckReason> {
    if SaturatingAdd(now, CLOCK_SKEW_SECS, U64_MAX) < t.body.notBefore then Some(NotYetValid)
    else if now >= t.body.notAfter then Some(Expired)
    else None
  }

  function CheckWindows(all: seq<Ticket>, now: nat, i: nat): Option<AckReason>
    requires i <= |all|
    decreases |all| - i
  {
    if i == |all| then None
    else
      var r := CheckWindow(all[i], now);
      if r.Some? then r else CheckWindows(all, now, i + 1)
  }

  lemma {:induction false} CheckWindowsIff(all: seq<Ticket>, now: nat, i: nat)
    requires i <= |all|
    ensures CheckWindows(all, now, i).None? <==> forall j :: i <= j < |all| ==> CheckWindow(all[j], now).None?
    decreases |all| - i
  {
    if i < |all| {
      CheckWindowsIff(all, now, i + 1);
    }
  }

  /** On a verified chain, checking every window accepts exactly when the terminal's is open. */
  lemma TerminalWindowDecides(p: Primitives, all: seq<Ticket>, roots: set<Key>, now: nat)
    requires all != [] && ChainHolds(p, all, roots)
    ensures CheckWindows(all, now, 0).None? <==> CheckWindow(all[|all| - 1], now).None?
  {
    CheckWindowsIff(all, now, 0);
    if CheckWindow(all[|all| - 1], now).None? {
      forall j | 0 <= j < |all|
        ensures CheckWindow(all[j], now).None?
      {
        ChainWindows(p, all, roots, j, |all| - 1);
      }
    }
  }

  // ---------- The whole offer ----------

  function DecodeTicket(p: Primitives, bytes: seq<byte>): Result<Ticket, AckReason> {
    var t := p.fromBytes(bytes);
    if t.None? then Err(InternalError("malformed offer"))
    else if !CanonicalTicket(p, t.value) then Err(InternalError("non-canonical ticket"))
    else if p.toBytes(t.value).None? then Err(InternalError("malformed offer"))
    else if p.toBytes(t.value).value != bytes then Err(InternalError("non-canonical ticket"))
    else Ok(t.value)
  }

  function DecodeAll(p: Primitives, chain: seq<seq<byte>>): Result<seq<Ticket>, AckReason> {
    if chain == [] then Ok([]) else
    var t := DecodeTicket(p, chain[0]);
    if t.Err? then Err(t.error) else
    var rest := DecodeAll(p, chain[1..]);
    if rest.Err? then rest else Ok([t.value] + rest.value)
  }

  function CheckProof(p: Primitives, terminal: Ticket, offer: Offer): Option<AckReason> {
    if terminal.body.to.None? then None
    else if offer.proof.None? then Some(ProofMissing)
    else if !p.verifyPop(terminal.body.to.value, p.ticketId(terminal.sig), offer.clientNonce, offer.proof.value)
    then Some(ProofInvalid)
    else None
  }

  predicate AnyRevoked(p: Primitives, all: seq<Ticket>, revoked: set<TicketId>) {
    exists t :: t in all && p.ticketId(t.sig) in revoked
  }

  datatype Input = Input(
    offer: Offer, sourceId: seq<byte>, trustRoots: set<Key>, revoked: set<TicketId>,
    now: nat, rateOk: bool, mode: AgentMode)

  datatype Outcome =
    | Accepted(peerToken: seq<byte>, caps: Caps, ticketId: TicketId, chainIds: seq<TicketId>,
               issuer: Key, holder: Option<Key>, bearer: Option<seq<byte>>)
    | Rejected(reason: AckReason)

  function EvaluateTickets(p: Primitives, input: Input, all: seq<Ticket>): Outcome
    requires all != []
  {
    var terminal := all[|all| - 1];
    var verified := VerifyChain(p, all, input.trustRoots);
    if verified.Err? then Rejected(verified.error)
    else if AnyRevoked(p, all, input.revoked) then Rejected(Revoked)
    else
      var badWindow := CheckWindows(all, input.now, 0);
      if badWindow.Some? then Rejected(badWindow.value) else
      var badProof := CheckProof(p, terminal, input.offer);
      if badProof.Some? then Rejected(badProof.value)
      else if input.mode == Listener && terminal.body.bearer.Some?
      then Rejected(InternalError("listener mode refuses master tickets"))
      else if input.mode == Gateway && terminal.body.bearer.None?
      then Rejected(InternalError("gateway mode requires a master ticket"))
      else
        var id := p.ticketId(terminal.sig);
        Accepted(p.peerToken(input.sourceId, id), verified.value.caps, id,
                 seq(|all|, i requires 0 <= i < |all| => p.ticketId(all[i].sig)),
                 verified.value.rootIssuer, terminal.body.to, terminal.body.bearer)
  }

  function EvaluateOffer(p: Primitives, input: Input): Outcome {
    if !input.rateOk then Rejected(RateLimited) else
    var terminal := DecodeTicket(p, input.offer.ticket);
    if terminal.Err? then Rejected(terminal.error) else
    var chain := DecodeAll(p, input.offer.chain);
    if chain.Err? then Rejected(chain.error) else
    EvaluateTickets(p, input, chain.value + [terminal.value])
  }

  /** The tickets of an offer, root first, when all of them decode. */
  function TicketsOf(p: Primitives, offer: Offer): Option<seq<Ticket>> {
    var terminal := DecodeTicket(p, offer.ticket);
    var chain := DecodeAll(p, offer.chain);
    if terminal.Ok? && chain.Ok? then Some(chain.value + [terminal.value]) else None
  }

  /** Exactly which offers are accepted. */
  lemma AcceptedIff(p: Primitives, input: Input)
    ensures EvaluateOffer(p, input).Accepted? <==>
              && input.rateOk
              && TicketsOf(p, input.offer).Some?
              && var all := TicketsOf(p, input.offer).value;
                 var terminal := all[|all| - 1];
                 && ChainHolds(p, all, input.trustRoots)
                 && (forall t :: t in all ==> p.ticketId(t.sig) !in input.revoked)
                 && CheckWindow(terminal, input.now).None?
                 && CheckProof(p, terminal, input.offer).None?
                 && (input.mode == Gateway <==> terminal.body.bearer.Some?)
  {
    if TicketsOf(p, input.offer).Some? {
      var all := TicketsOf(p, input.offer).value;
      VerifyChainIff(p, all, input.trustRoots);
      if ChainHolds(p, all, input.trustRoots) {
        TerminalWindowDecides(p, all, input.trustRoots, input.now);
      }
    }
  }

  /**
   * For every accepted offer, whatever the granted capabilities permit is
   * permitted by every ticket of the chain, back to a trusted root.
   */
  lemma AcceptedAttenuates(p: Primitives, input: Input, i: nat, r: Request)
    requires EvaluateOffer(p, input).Accepted?
    requires TicketsOf(p, input.offer).Some? ==> i < |TicketsOf(p, input.offer).value|
    requires Permits(EvaluateOffer(p, input).caps, r) && Attenuable(r)
    ensures TicketsOf(p, input.offer).Some?
    ensures var all := TicketsOf(p, input.offer).value;
            Permits(all[i].body.caps, r) && ResolvedIssuer(all[0]) in input.trustRoots
  {
    AcceptedIff(p, input);
    var all := TicketsOf(p, input.offer).value;
    ChainAttenuates(p, all, input.trustRoots, i, |all| - 1, r);
  }
}
