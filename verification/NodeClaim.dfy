/** The handshake that claims a node by email: backend/routes/node_claim.py over the link
    store of backend/core/auth.py and the two claim tables of
    backend/services/node_claim_store.py.

    Every step is one commit, so a crash may fall between any two. One node's claim requests
    run one at a time; clicks, declines, administrators and other nodes run in between. */
module NodeClaim {
  import opened MagicLinks
  import opened Wrappers

  const CLAIM := "claim"
  const SIGNIN := "signin"

  type Node = string

  /** A row of node_claims. */
  datatype Claim = Claim(owner: Option<string>, email: Option<string>, verified: bool, undeliverable: bool)

  /** A row of node_claim_challenges. */
  datatype Challenge = Challenge(email: string, handle: Handle, expiresAt: real)

  datatype Standing = Unclaimed | Pending | Owned

  datatype Status = Status(state: Standing, email: Option<string>, undeliverable: bool)

  /** How far a node's claim request has got. */
  datatype Phase =
    | Admitted(email: string, now: real)
    | Cleared(email: string, now: real)
    | Minted(email: string, now: real, handle: Handle)
    | Capped(email: string)
    | Committed(email: string, handle: Handle)

  /** What a spent claim link was for. */
  datatype Ticket = Ticket(node: Node, email: string)

  datatype State = State(
    rows: Table,
    claims: map<Node, Claim>,
    challenges: map<Node, Challenge>,
    phases: map<Node, Phase>,
    minted: map<Handle, Option<Node>>,
    accounts: map<string, string>,
    delivered: set<Handle>,
    redeemed: map<Handle, Ticket>,
    settled: set<Handle>,
    mailed: multiset<Node>,
    asked: multiset<Node>)

  const Empty := State.State(map[], map[], map[], map[], map[], map[], {}, map[], {}, multiset{}, multiset{})

  /** One commit, and the moment it is made. */
  datatype Event =
    | Put(node: Node, email: string, at: real, admitted: bool)
    | Resend(node: Node, at: real, admitted: bool)
    | Displace(node: Node, at: real)
    | Mint(node: Node, handle: Handle, at: real)
    | Commit(node: Node, at: real)
    | Deliver(node: Node, sent: bool, at: real)
    | Crash(node: Node, at: real)
    | SignIn(email: string, at: real, handle: Handle)
    | Enrol(email: string, user: string, at: real)
    | Click(handle: Handle, at: real)
    | Bind(handle: Handle, at: real)
    | Decline(handle: Handle, at: real)
    | Assign(node: Node, owner: Option<string>, at: real)
    | Release(node: Node, user: string, at: real)
    | Bounce(node: Node, email: string, at: real)

  // ── what each step does ───────────────────────────────────────────────────

  function StatusOf(claims: map<Node, Claim>, challenges: map<Node, Challenge>, n: Node, now: real): Status {
    if n !in claims then Status(Unclaimed, None, false)
    else if claims[n].owner.Some? then Status(Owned, claims[n].email, false)
    else if claims[n].undeliverable then Status(Unclaimed, claims[n].email, true)
    else if n in challenges && challenges[n].expiresAt > now then Status(Pending, Some(challenges[n].email), false)
    else Status(Unclaimed, claims[n].email, false)
  }

  function Nominated(claims: map<Node, Claim>, n: Node, email: string): map<Node, Claim> {
    if n !in claims then claims[n := Claim(None, Some(email), false, false)]
    else if claims[n].email != Some(email) then
      claims[n := Claim(claims[n].owner, Some(email), false, false)]
    else claims
  }

  /** A PUT of an address the unowned node does not already hold. */
  predicate AddressChanges(st: State, n: Node, email: string) {
    n !in st.claims || (st.claims[n].owner.None? && st.claims[n].email != Some(email))
  }

  /** Whether a PUT goes on to start a claim, and so whether it is a fresh offer. */
  predicate PutStarts(st: State, n: Node, email: string, now: real, admitted: bool) {
    var status := StatusOf(st.claims, st.challenges, n, now);
    !status.state.Owned? && status.email != Some(email) && admitted
  }

  function AfterPut(st: State, n: Node, email: string, now: real, admitted: bool): State {
    if n in st.phases then st
    else
      st.(asked := if AddressChanges(st, n, email) then st.asked + multiset{n} else st.asked,
          phases := if PutStarts(st, n, email, now, admitted) then st.phases[n := Admitted(email, now)] else st.phases)
  }

  predicate ResendStarts(st: State, n: Node, now: real, admitted: bool) {
    var status := StatusOf(st.claims, st.challenges, n, now);
    !status.state.Owned? && status.email.Some? && !status.undeliverable && admitted
  }

  function AfterResend(st: State, n: Node, now: real, admitted: bool): State {
    if n in st.phases then st
    else
      st.(asked := st.asked + multiset{n},
          phases := if ResendStarts(st, n, now, admitted)
                    then st.phases[n := Admitted(StatusOf(st.claims, st.challenges, n, now).email.value, now)]
                    else st.phases)
  }

  function Displaced(rows: Table, challenges: map<Node, Challenge>, n: Node): Table {
    if n in challenges then rows - {challenges[n].handle} else rows
  }

  function AfterDisplace(st: State, n: Node): State {
    if n in st.phases && st.phases[n].Admitted? then
      st.(rows := Displaced(st.rows, st.challenges, n),
          phases := st.phases[n := Cleared(st.phases[n].email, st.phases[n].now)])
    else st
  }

  /** A token is never minted twice. */
  function AfterMint(st: State, n: Node, h: Handle): State {
    if n in st.phases && st.phases[n].Cleared? && h !in st.minted then
      var email, now := st.phases[n].email, st.phases[n].now;
      var rows := Issue(st.rows, email, CLAIM, Some(n), now, h);
      st.(rows := rows, minted := st.minted[h := Some(n)],
          phases := st.phases[n := if h in rows then Minted(email, now, h) else Capped(email)])
    else st
  }

  function AfterCommit(st: State, n: Node): State {
    if n !in st.phases then st
    else match st.phases[n]
      case Minted(email, now, h) =>
        st.(challenges := st.challenges[n := Challenge(email, h, now + MAGIC_LINK_EXPIRY_S)],
            claims := Nominated(st.claims, n, email),
            phases := st.phases[n := Committed(email, h)])
      case Capped(email) =>
        st.(challenges := st.challenges - {n}, claims := Nominated(st.claims, n, email), phases := st.phases - {n})
      case _ => st
  }

  function AfterDeliver(st: State, n: Node, sent: bool): State {
    if n in st.phases && st.phases[n].Committed? then
      var s := st.(phases := st.phases - {n});
      if sent then s.(delivered := st.delivered + {st.phases[n].handle}, mailed := st.mailed + multiset{n}) else s
    else st
  }

  function AfterSignIn(st: State, email: string, now: real, h: Handle): State {
    if h in st.minted then st
    else st.(rows := Issue(st.rows, email, SIGNIN, None, now, h), minted := st.minted[h := None])
  }

  function AfterClick(st: State, h: Handle, now: real): State {
    if Redeems(st.rows, h, CLAIM, now) && st.rows[h].node.Some? then
      st.(rows := Redeem(st.rows, h, CLAIM, now),
          redeemed := st.redeemed[h := Ticket(st.rows[h].node.value, st.rows[h].email)])
    else st.(rows := Redeem(st.rows, h, CLAIM, now))
  }

  predicate Settles(st: State, h: Handle) {
    h in st.redeemed && h !in st.settled
  }

  /** The account behind an address, opened on first use and never another's. */
  function AfterEnrol(st: State, email: string, user: string): State {
    if email in st.accounts then st else st.(accounts := st.accounts[email := user])
  }

  /** Whether completing this click finds the node still offering the ticket's address, with
      no owner or the clicker's own account. */
  predicate Binds(st: State, t: Ticket) {
    && t.email in st.accounts
    && t.node in st.claims && st.claims[t.node].email == Some(t.email)
    && (st.claims[t.node].owner.None? || st.claims[t.node].owner == Some(st.accounts[t.email]))
  }

  function AfterBind(st: State, h: Handle): State {
    if !Settles(st, h) then st
    else
      var t := st.redeemed[h];
      var s := st.(settled := st.settled + {h});
      if Binds(st, t) then
        s.(claims := st.claims[t.node := st.claims[t.node].(owner := Some(st.accounts[t.email]), verified := true)],
           challenges := st.challenges - {t.node})
      else s
  }

  predicate DeclineDrops(st: State, h: Handle)
    requires h in st.redeemed
  {
    var n := st.redeemed[h].node;
    n in st.challenges && st.challenges[n].handle == h
  }

  function AfterDecline(st: State, h: Handle): State {
    if !Settles(st, h) then st
    else
      var s := st.(settled := st.settled + {h});
      if DeclineDrops(st, h) then s.(challenges := st.challenges - {st.redeemed[h].node}) else s
  }

  predicate Reassigns(st: State, n: Node, user: Option<string>) {
    !(n in st.claims && user.Some? && st.claims[n].owner == user)
  }

  function AfterAssign(st: State, n: Node, user: Option<string>): State {
    if !Reassigns(st, n, user) then st
    else
      st.(challenges := st.challenges - {n},
          claims := if user.None? then st.claims - {n} else st.claims[n := Claim(user, None, false, false)])
  }

  predicate Releases(st: State, n: Node, user: string) {
    n in st.claims && st.claims[n].owner == Some(user)
  }

  function AfterRelease(st: State, n: Node, user: string): State {
    if Releases(st, n, user) then st.(challenges := st.challenges - {n}, claims := st.claims - {n}) else st
  }

  /** A hard bounce; the handle it hands back is invalidated, as the store asks of callers. */
  function AfterBounce(st: State, n: Node, email: string): State {
    if n in st.claims && st.claims[n].email == Some(email) then
      st.(claims := st.claims[n := st.claims[n].(undeliverable := true)],
          rows := Displaced(st.rows, st.challenges, n),
          challenges := st.challenges - {n})
    else st
  }

  function Step(st: State, e: Event): State {
    match e
    case Put(n, email, at, admitted) => AfterPut(st, n, email, at, admitted)
    case Resend(n, at, admitted) => AfterResend(st, n, at, admitted)
    case Displace(n, _) => AfterDisplace(st, n)
    case Mint(n, h, _) => AfterMint(st, n, h)
    case Commit(n, _) => AfterCommit(st, n)
    case Deliver(n, sent, _) => AfterDeliver(st, n, sent)
    case Crash(n, _) => st.(phases := st.phases - {n})
    case SignIn(email, at, h) => AfterSignIn(st, email, at, h)
    case Enrol(email, user, _) => AfterEnrol(st, email, user)
    case Click(h, at) => AfterClick(st, h, at)
    case Bind(h, _) => AfterBind(st, h)
    case Decline(h, _) => AfterDecline(st, h)
    case Assign(n, owner, _) => AfterAssign(st, n, owner)
    case Release(n, user, _) => AfterRelease(st, n, user)
    case Bounce(n, email, _) => AfterBounce(st, n, email)
  }

  function Run(events: seq<Event>): State {
    if events == [] then Empty else Step(Run(events[..|events| - 1]), events[|events| - 1])
  }

  // ── what always holds ─────────────────────────────────────────────────────

  /** h was minted as a claim link of n, and its row, if still there, says so. */
  predicate LinkOf(st: State, h: Handle, n: Node, email: string) {
    && h in st.minted && st.minted[h] == Some(n)
    && (h in st.rows ==> st.rows[h].intent == CLAIM && st.rows[h].node == Some(n) && st.rows[h].email == email)
  }

  predicate RowSound(st: State, h: Handle)
    requires h in st.rows
  {
    && h in st.minted && st.rows[h].node == st.minted[h]
    && (st.minted[h].Some? <==> st.rows[h].intent == CLAIM)
  }

  predicate PhaseSound(st: State, n: Node)
    requires n in st.phases
  {
    match st.phases[n]
    case Minted(email, _, h) => LinkOf(st, h, n, email) && h !in st.delivered
    case Committed(email, h) => LinkOf(st, h, n, email) && h !in st.delivered
    case _ => true
  }

  predicate ChallengeSound(st: State, n: Node)
    requires n in st.challenges
  {
    && LinkOf(st, st.challenges[n].handle, n, st.challenges[n].email)
    && n in st.claims && st.claims[n].email == Some(st.challenges[n].email)
  }

  predicate TicketSound(st: State, h: Handle)
    requires h in st.redeemed
  {
    h in st.minted && st.minted[h] == Some(st.redeemed[h].node) && !IsUnspent(st.rows, h)
  }

  ghost predicate Sound(st: State) {
    && (forall h :: h in st.rows ==> RowSound(st, h))
    && (forall n :: n in st.phases ==> PhaseSound(st, n))
    && (forall n :: n in st.challenges ==> ChallengeSound(st, n))
    && (forall h :: h in st.redeemed ==> TicketSound(st, h))
    && (forall h :: h in st.delivered ==> h in st.minted)
  }

  lemma {:induction false} RunIsSound(events: seq<Event>)
    ensures Sound(Run(events))
  {
    if events != [] {
      RunIsSound(events[..|events| - 1]);
      StepIsSound(Run(events[..|events| - 1]), events[|events| - 1]);
    }
  }

  /** Rows go, or are marked used; none appears or changes what it is for. */
  ghost predicate Fades(rows: Table, after: Table) {
    forall h :: h in after ==>
      h in rows && after[h].(usedAt := None) == rows[h].(usedAt := None) && (IsUnspent(after, h) ==> IsUnspent(rows, h))
  }

  lemma FadingIsSound(st: State, after: Table)
    requires Sound(st) && Fades(st.rows, after)
    ensures Sound(st.(rows := after))
  {
  }

  /** A fresh handle upsets nothing that is already on file. */
  lemma MintingIsSound(st: State, h: Handle, link: Link)
    requires Sound(st) && h !in st.minted
    requires link.node.Some? <==> link.intent == CLAIM
    ensures Sound(st.(minted := st.minted[h := link.node]))
    ensures Sound(st.(rows := st.rows[h := link], minted := st.minted[h := link.node]))
  {
    var s := st.(rows := st.rows[h := link], minted := st.minted[h := link.node]);
    var t := st.(minted := s.minted);
    forall k | k in st.rows ensures k != h && RowSound(s, k) && RowSound(t, k) { assert RowSound(st, k); }
    forall n | n in st.phases ensures PhaseSound(s, n) && PhaseSound(t, n) { assert PhaseSound(st, n); }
    forall n | n in st.challenges ensures ChallengeSound(s, n) && ChallengeSound(t, n) { assert ChallengeSound(st, n); }
    forall k | k in st.redeemed ensures TicketSound(s, k) && TicketSound(t, k) { assert TicketSound(st, k); }
  }

  lemma IssuingIsSound(st: State, email: string, intent: string, node: Option<Node>, now: real, h: Handle)
    requires Sound(st) && h !in st.minted
    requires node.Some? <==> intent == CLAIM
    ensures Sound(st.(rows := Issue(st.rows, email, intent, node, now, h), minted := st.minted[h := node]))
  {
    var swept := st.(rows := Swept(st.rows, email, now));
    FadingIsSound(st, swept.rows);
    MintingIsSound(swept, h, Link(email, intent, node, now, now + MAGIC_LINK_EXPIRY_S, None));
  }

  lemma PhaseIsSound(st: State, n: Node, phase: Phase)
    requires Sound(st)
    requires PhaseSound(st.(phases := st.phases[n := phase]), n)
    ensures Sound(st.(phases := st.phases[n := phase]))
  {
  }

  lemma MintIsSound(st: State, n: Node, h: Handle)
    requires Sound(st)
    ensures Sound(AfterMint(st, n, h))
  {
    if n in st.phases && st.phases[n].Cleared? && h !in st.minted {
      var email, now := st.phases[n].email, st.phases[n].now;
      IssuingIsSound(st, email, CLAIM, Some(n), now, h);
      var rows := Issue(st.rows, email, CLAIM, Some(n), now, h);
      PhaseIsSound(st.(rows := rows, minted := st.minted[h := Some(n)]), n,
                   if h in rows then Minted(email, now, h) else Capped(email));
    }
  }

  /** Challenge rows go and the addresses behind the others stay. */
  lemma StoringIsSound(st: State, claims: map<Node, Claim>, challenges: map<Node, Challenge>, settled: set<Handle>)
    requires Sound(st)
    requires forall m :: m in challenges ==>
               m in st.challenges && challenges[m] == st.challenges[m]
               && m in claims && m in st.claims && claims[m].email == st.claims[m].email
    ensures Sound(st.(claims := claims, challenges := challenges, settled := settled))
  {
  }

  lemma AllHaveClaims(st: State)
    requires Sound(st)
    ensures forall m :: m in st.challenges ==> m in st.claims
  {
  }

  lemma EndIsSound(st: State, n: Node)
    requires Sound(st)
    ensures Sound(st.(phases := st.phases - {n}))
  {
  }

  lemma CommitIsSound(st: State, n: Node)
    requires Sound(st) && n in st.phases && st.phases[n].Minted?
    ensures Sound(AfterCommit(st, n))
  {
  }

  lemma DeliverIsSound(st: State, n: Node, sent: bool)
    requires Sound(st) && n in st.phases && st.phases[n].Committed?
    ensures Sound(AfterDeliver(st, n, sent))
  {
  }

  lemma TicketIsSound(st: State, h: Handle, t: Ticket)
    requires Sound(st) && h in st.minted && st.minted[h] == Some(t.node) && !IsUnspent(st.rows, h)
    ensures Sound(st.(redeemed := st.redeemed[h := t]))
  {
  }

  lemma ClickIsSound(st: State, h: Handle, now: real)
    requires Sound(st)
    ensures Sound(AfterClick(st, h, now))
  {
    var rows := Redeem(st.rows, h, CLAIM, now);
    FadingIsSound(st, rows);
    if Redeems(st.rows, h, CLAIM, now) && st.rows[h].node.Some? {
      assert RowSound(st, h);
      TicketIsSound(st.(rows := rows), h, Ticket(st.rows[h].node.value, st.rows[h].email));
    }
  }

  lemma BeginIsSound(st: State, n: Node, email: Option<string>, now: real, more: multiset<Node>)
    requires Sound(st)
    ensures Sound(st.(asked := more))
    ensures email.Some? ==> Sound(st.(asked := more, phases := st.phases[n := Admitted(email.value, now)]))
  {
  }

  lemma DisplaceIsSound(st: State, n: Node)
    requires Sound(st)
    ensures Sound(AfterDisplace(st, n))
  {
  }

  lemma CapIsSound(st: State, n: Node)
    requires Sound(st) && n in st.phases && st.phases[n].Capped?
    ensures Sound(AfterCommit(st, n))
  {
  }

  lemma RequestIsSound(st: State, e: Event)
    requires Sound(st) && (e.Put? || e.Resend? || e.Displace? || e.Mint? || e.Commit? || e.Deliver? || e.Crash?)
    ensures Sound(Step(st, e))
  {
    match e
    case Put(n, email, at, _) => BeginIsSound(st, n, Some(email), at, Step(st, e).asked);
    case Resend(n, at, _) =>
      BeginIsSound(st, n, StatusOf(st.claims, st.challenges, n, at).email, at, Step(st, e).asked);
    case Displace(n, _) => DisplaceIsSound(st, n);
    case Mint(n, h, _) => MintIsSound(st, n, h);
    case Commit(n, _) =>
      if n in st.phases && st.phases[n].Minted? { CommitIsSound(st, n); }
      if n in st.phases && st.phases[n].Capped? { CapIsSound(st, n); }
    case Deliver(n, sent, _) => if n in st.phases && st.phases[n].Committed? { DeliverIsSound(st, n, sent); }
    case Crash(n, _) => EndIsSound(st, n);
  }

  lemma BounceIsSound(st: State, n: Node, email: string)
    requires Sound(st)
    ensures Sound(AfterBounce(st, n, email))
  {
  }

  lemma BindIsSound(st: State, h: Handle)
    requires Sound(st)
    ensures Sound(AfterBind(st, h))
  {
    AllHaveClaims(st);
    StoringIsSound(st, AfterBind(st, h).claims, AfterBind(st, h).challenges, AfterBind(st, h).settled);
  }

  lemma DeclineIsSound(st: State, h: Handle)
    requires Sound(st)
    ensures Sound(AfterDecline(st, h))
  {
    AllHaveClaims(st);
    StoringIsSound(st, st.claims, AfterDecline(st, h).challenges, AfterDecline(st, h).settled);
  }

  lemma AssignIsSound(st: State, n: Node, owner: Option<string>)
    requires Sound(st)
    ensures Sound(AfterAssign(st, n, owner))
  {
  }

  lemma ReleaseIsSound(st: State, n: Node, user: string)
    requires Sound(st)
    ensures Sound(AfterRelease(st, n, user))
  {
  }

  lemma StepIsSound(st: State, e: Event)
    requires Sound(st)
    ensures Sound(Step(st, e))
  {
    match e
    case SignIn(email, at, h) => if h !in st.minted { IssuingIsSound(st, email, SIGNIN, None, at, h); }
    case Enrol(email, user, _) => EnrolIsSound(st, email, user);
    case Click(h, at) => ClickIsSound(st, h, at);
    case Bounce(n, email, _) => BounceIsSound(st, n, email);
    case Bind(h, _) => BindIsSound(st, h);
    case Decline(h, _) => DeclineIsSound(st, h);
    case Assign(n, owner, _) => AssignIsSound(st, n, owner);
    case Release(n, user, _) => ReleaseIsSound(st, n, user);
    case _ => RequestIsSound(st, e);
  }

  lemma EnrolIsSound(st: State, email: string, user: string)
    requires Sound(st)
    ensures Sound(AfterEnrol(st, email, user))
  {
  }

  lemma RowsAreMinted(st: State)
    requires Sound(st)
    ensures st.rows.Keys <= st.minted.Keys
  {
  }

  // ── what a node is told ───────────────────────────────────────────────────

  /** The moment a run minted this link at: when the request for it, or the sign-in, began. */
  function IssuedAt(events: seq<Event>, h: Handle): Option<real> {
    if events == [] then None
    else
      var before, e := events[..|events| - 1], events[|events| - 1];
      if h in Run(before).minted then IssuedAt(before, h) else MintedBy(Run(before), e, h)
  }

  function MintedBy(st: State, e: Event, h: Handle): Option<real> {
    if e.Mint? && e.handle == h && e.node in st.phases && st.phases[e.node].Cleared? then Some(st.phases[e.node].now)
    else if e.SignIn? && e.handle == h then Some(e.at)
    else None
  }

  type Dates = Handle -> Option<real>

  predicate FifteenMinutes(expiresAt: real, issued: Option<real>) {
    issued.Some? && expiresAt == issued.value + 900.0
  }

  ghost predicate RowsDated(rows: Table, dates: Dates) {
    forall h :: h in rows ==> FifteenMinutes(rows[h].expiresAt, dates(h))
  }

  ghost predicate NamesDated(challenges: map<Node, Challenge>, dates: Dates) {
    forall n :: n in challenges ==> FifteenMinutes(challenges[n].expiresAt, dates(challenges[n].handle))
  }

  ghost predicate PhasesDated(phases: map<Node, Phase>, dates: Dates) {
    forall n :: n in phases && phases[n].Minted? ==> dates(phases[n].handle) == Some(phases[n].now)
  }

  /** Every link, and every row naming one, runs out fifteen minutes after it was minted. */
  ghost predicate Dated(st: State, dates: Dates) {
    RowsDated(st.rows, dates) && NamesDated(st.challenges, dates) && PhasesDated(st.phases, dates)
  }

  /** What was minted before keeps its date. */
  ghost predicate Extends(st: State, dates: Dates, later: Dates) {
    forall h :: h in st.minted ==> later(h) == dates(h)
  }

  lemma LaterDates(st: State, dates: Dates, later: Dates)
    requires Sound(st) && Dated(st, dates) && Extends(st, dates, later)
    ensures Dated(st, later)
  {
    forall n | n in st.challenges ensures st.challenges[n].handle in st.minted { assert ChallengeSound(st, n); }
    forall n | n in st.phases && st.phases[n].Minted? ensures st.phases[n].handle in st.minted { assert PhaseSound(st, n); }
  }

  lemma IssuedStaysDated(rows: Table, email: string, intent: string, node: Option<Node>, now: real, h: Handle, dates: Dates)
    requires RowsDated(rows, dates) && dates(h) == Some(now)
    ensures RowsDated(Issue(rows, email, intent, node, now, h), dates)
  {
  }

  lemma RedeemedStayDated(rows: Table, h: Handle, now: real, dates: Dates)
    requires RowsDated(rows, dates)
    ensures RowsDated(Redeem(rows, h, CLAIM, now), dates)
  {
    var after := Redeem(rows, h, CLAIM, now);
    forall k | k in after ensures FifteenMinutes(after[k].expiresAt, dates(k)) {
      if k != h { RedeemIsExact(rows, h, CLAIM, now, k); }
    }
  }

  lemma DisplacedStayDated(rows: Table, challenges: map<Node, Challenge>, n: Node, dates: Dates)
    requires RowsDated(rows, dates)
    ensures RowsDated(Displaced(rows, challenges, n), dates)
  {
  }

  lemma DroppedStayDated(challenges: map<Node, Challenge>, n: Node, dates: Dates)
    requires NamesDated(challenges, dates)
    ensures NamesDated(challenges - {n}, dates)
  {
  }

  lemma EndedStayDated(phases: map<Node, Phase>, n: Node, dates: Dates)
    requires PhasesDated(phases, dates)
    ensures PhasesDated(phases - {n}, dates)
    ensures forall phase: Phase :: !phase.Minted? ==> PhasesDated(phases[n := phase], dates)
  {
  }

  lemma MintStaysDated(st: State, n: Node, h: Handle, dates: Dates)
    requires Dated(st, dates) && n in st.phases && st.phases[n].Cleared? && h !in st.minted
    requires dates(h) == Some(st.phases[n].now)
    ensures Dated(AfterMint(st, n, h), dates)
  {
    IssuedStaysDated(st.rows, st.phases[n].email, CLAIM, Some(n), st.phases[n].now, h, dates);
  }

  lemma CommitStaysDated(st: State, n: Node, dates: Dates)
    requires Dated(st, dates) && n in st.phases && (st.phases[n].Minted? || st.phases[n].Capped?)
    ensures Dated(AfterCommit(st, n), dates)
  {
  }

  lemma PutStaysDated(st: State, n: Node, email: string, now: real, admitted: bool, dates: Dates)
    requires Dated(st, dates)
    ensures Dated(AfterPut(st, n, email, now, admitted), dates)
  {
    EndedStayDated(st.phases, n, dates);
  }

  lemma ResendStaysDated(st: State, n: Node, now: real, admitted: bool, dates: Dates)
    requires Dated(st, dates)
    ensures Dated(AfterResend(st, n, now, admitted), dates)
  {
    EndedStayDated(st.phases, n, dates);
  }

  lemma DisplaceStaysDated(st: State, n: Node, dates: Dates)
    requires Dated(st, dates)
    ensures Dated(AfterDisplace(st, n), dates)
  {
    DisplacedStayDated(st.rows, st.challenges, n, dates);
    EndedStayDated(st.phases, n, dates);
  }

  lemma DeliverStaysDated(st: State, n: Node, sent: bool, dates: Dates)
    requires Dated(st, dates)
    ensures Dated(AfterDeliver(st, n, sent), dates)
  {
    EndedStayDated(st.phases, n, dates);
  }

  lemma ClickStaysDated(st: State, h: Handle, now: real, dates: Dates)
    requires Dated(st, dates)
    ensures Dated(AfterClick(st, h, now), dates)
  {
    RedeemedStayDated(st.rows, h, now, dates);
  }

  lemma BindStaysDated(st: State, h: Handle, dates: Dates)
    requires Dated(st, dates)
    ensures Dated(AfterBind(st, h), dates)
  {
    if h in st.redeemed { DroppedStayDated(st.challenges, st.redeemed[h].node, dates); }
  }

  lemma DeclineStaysDated(st: State, h: Handle, dates: Dates)
    requires Dated(st, dates)
    ensures Dated(AfterDecline(st, h), dates)
  {
    if h in st.redeemed { DroppedStayDated(st.challenges, st.redeemed[h].node, dates); }
  }

  lemma AssignStaysDated(st: State, n: Node, owner: Option<string>, dates: Dates)
    requires Dated(st, dates)
    ensures Dated(AfterAssign(st, n, owner), dates)
  {
    DroppedStayDated(st.challenges, n, dates);
  }

  lemma ReleaseStaysDated(st: State, n: Node, user: string, dates: Dates)
    requires Dated(st, dates)
    ensures Dated(AfterRelease(st, n, user), dates)
  {
    DroppedStayDated(st.challenges, n, dates);
  }

  lemma BounceStaysDated(st: State, n: Node, email: string, dates: Dates)
    requires Dated(st, dates)
    ensures Dated(AfterBounce(st, n, email), dates)
  {
    DisplacedStayDated(st.rows, st.challenges, n, dates);
    DroppedStayDated(st.challenges, n, dates);
  }

  lemma SignInStaysDated(st: State, email: string, now: real, h: Handle, dates: Dates)
    requires Dated(st, dates) && (h !in st.minted ==> dates(h) == Some(now))
    ensures Dated(AfterSignIn(st, email, now, h), dates)
  {
    if h !in st.minted { IssuedStaysDated(st.rows, email, SIGNIN, None, now, h, dates); }
  }

  lemma RequestStaysDated(st: State, e: Event, dates: Dates)
    requires Dated(st, dates) && (e.Put? || e.Resend? || e.Displace? || e.Mint? || e.Commit? || e.Deliver? || e.Crash?)
    requires forall h :: h !in st.minted && MintedBy(st, e, h).Some? ==> dates(h) == MintedBy(st, e, h)
    ensures Dated(Step(st, e), dates)
  {
    match e
    case Put(n, email, at, admitted) => PutStaysDated(st, n, email, at, admitted, dates);
    case Resend(n, at, admitted) => ResendStaysDated(st, n, at, admitted, dates);
    case Displace(n, _) => DisplaceStaysDated(st, n, dates);
    case Mint(n, h, _) =>
      if n in st.phases && st.phases[n].Cleared? && h !in st.minted { MintStaysDated(st, n, h, dates); }
    case Commit(n, _) =>
      if n in st.phases && (st.phases[n].Minted? || st.phases[n].Capped?) { CommitStaysDated(st, n, dates); }
    case Deliver(n, sent, _) => DeliverStaysDated(st, n, sent, dates);
    case Crash(n, _) => EndedStayDated(st.phases, n, dates);
  }

  lemma StepStaysDated(st: State, e: Event, dates: Dates)
    requires Dated(st, dates)
    requires forall h :: h !in st.minted && MintedBy(st, e, h).Some? ==> dates(h) == MintedBy(st, e, h)
    ensures Dated(Step(st, e), dates)
  {
    match e
    case SignIn(email, at, h) => SignInStaysDated(st, email, at, h, dates);
    case Enrol(_, _, _) =>
    case Click(h, at) => ClickStaysDated(st, h, at, dates);
    case Bind(h, _) => BindStaysDated(st, h, dates);
    case Decline(h, _) => DeclineStaysDated(st, h, dates);
    case Assign(n, owner, _) => AssignStaysDated(st, n, owner, dates);
    case Release(n, user, _) => ReleaseStaysDated(st, n, user, dates);
    case Bounce(n, email, _) => BounceStaysDated(st, n, email, dates);
    case _ => RequestStaysDated(st, e, dates);
  }

  lemma {:induction false} RunIsDated(events: seq<Event>)
    ensures Dated(Run(events), h => IssuedAt(events, h))
  {
    if events != [] {
      var before, e := events[..|events| - 1], events[|events| - 1];
      var dates: Dates := h => IssuedAt(events, h);
      RunIsDated(before);
      RunIsSound(before);
      LaterDates(Run(before), h => IssuedAt(before, h), dates);
      StepStaysDated(Run(before), e, dates);
    }
  }

  /** After any run a node is told that a claim is pending exactly when it has an address, no owner
      and no bounce, and the link its row names was minted less than fifteen minutes ago. */
  lemma PendingExactlyWhileLinkIsInDate(events: seq<Event>, n: Node, now: real)
    ensures var st := Run(events);
            StatusOf(st.claims, st.challenges, n, now).state == Pending
            <==> && n in st.claims && st.claims[n].owner.None? && !st.claims[n].undeliverable
                 && exists h :: Names(st, n, h) && IssuedAt(events, h).Some? && now < IssuedAt(events, h).value + 900.0
  {
    RunIsDated(events);
    RunIsSound(events);
    var st := Run(events);
    if n in st.challenges {
      var h := st.challenges[n].handle;
      assert Names(st, n, h) && FifteenMinutes(st.challenges[n].expiresAt, IssuedAt(events, h));
    }
  }

  /** What is pending can still be clicked, and what can be clicked until later is pending: the
      link named, unless it was spent or is gone, redeems at this moment for this node and address. */
  lemma PendingMeansRedeemable(events: seq<Event>, n: Node, h: Handle, now: real)
    requires Names(Run(events), n, h) && IsUnspent(Run(events).rows, h)
    requires n in Run(events).claims && Run(events).claims[n].owner.None? && !Run(events).claims[n].undeliverable
    ensures var st := Run(events);
            var status := StatusOf(st.claims, st.challenges, n, now);
            && (status.state == Pending ==>
                  && Redeems(st.rows, h, CLAIM, now)
                  && st.rows[h].node == Some(n) && status.email == Some(st.rows[h].email))
            && (Redeems(st.rows, h, CLAIM, now) && st.rows[h].expiresAt != now ==> status.state == Pending)
  {
    RunIsDated(events);
    RunIsSound(events);
    assert ChallengeSound(Run(events), n);
  }

  /** Whose standing a step is about. */
  function Subject(st: State, e: Event): Option<Node> {
    match e
    case Bind(h, _) => if h in st.redeemed then Some(st.redeemed[h].node) else None
    case Decline(h, _) => if h in st.redeemed then Some(st.redeemed[h].node) else None
    case Commit(n, _) => Some(n)
    case Assign(n, _, _) => Some(n)
    case Release(n, _, _) => Some(n)
    case Bounce(n, _, _) => Some(n)
    case _ => None
  }

  /** Both tables hold the same of this node. */
  predicate SameOf(st: State, s: State, m: Node) {
    && (m in s.claims <==> m in st.claims) && (m in st.claims && m in s.claims ==> s.claims[m] == st.claims[m])
    && (m in s.challenges <==> m in st.challenges)
    && (m in st.challenges && m in s.challenges ==> s.challenges[m] == st.challenges[m])
  }

  lemma BindKeepsOthers(st: State, h: Handle, m: Node)
    requires h in st.redeemed ==> st.redeemed[h].node != m
    ensures SameOf(st, AfterBind(st, h), m)
  {
  }

  lemma DeclineKeepsOthers(st: State, h: Handle, m: Node)
    requires h in st.redeemed ==> st.redeemed[h].node != m
    ensures SameOf(st, AfterDecline(st, h), m)
  {
  }

  lemma DropsKeepOthers(st: State, e: Event, m: Node)
    requires (e.Assign? || e.Release?) && e.node != m
    ensures SameOf(st, Step(st, e), m)
  {
    match e
    case Assign(_, _, _) =>
    case Release(_, _, _) =>
  }

  lemma BounceKeepsOthers(st: State, n: Node, email: string, m: Node)
    requires m != n
    ensures SameOf(st, AfterBounce(st, n, email), m)
  {
  }

  lemma CommitKeepsOthers(st: State, n: Node, m: Node)
    requires m != n
    ensures SameOf(st, AfterCommit(st, n), m)
  {
  }

  /** No step changes what another node is told. */
  lemma OthersAreToldTheSame(st: State, e: Event, m: Node, now: real)
    requires Subject(st, e) != Some(m)
    ensures var s := Step(st, e); StatusOf(s.claims, s.challenges, m, now) == StatusOf(st.claims, st.challenges, m, now)
  {
    if e.Put? || e.Resend? || e.Displace? || e.Mint? || e.Deliver? || e.Crash? {
      RequestKeepsClaims(st, e);
    } else if e.SignIn? || e.Enrol? || e.Click? {
      ClicksKeepClaims(st, e);
    } else if e.Commit? {
      CommitKeepsOthers(st, e.node, m);
    } else if e.Bind? {
      BindKeepsOthers(st, e.handle, m);
    } else if e.Decline? {
      DeclineKeepsOthers(st, e.handle, m);
    } else if e.Bounce? {
      BounceKeepsOthers(st, e.node, e.email, m);
    } else {
      DropsKeepOthers(st, e, m);
    }
  }

  lemma ClicksKeepClaims(st: State, e: Event)
    requires e.SignIn? || e.Enrol? || e.Click?
    ensures Step(st, e).claims == st.claims && Step(st, e).challenges == st.challenges
  {
    match e
    case SignIn(_, _, _) =>
    case Enrol(_, _, _) =>
    case Click(_, _) =>
  }

  /** A click completes a claim exactly when its address has an account, the node still offers that
      address, and its owner, if any, is that account: the node is then owned, confirmed and
      has no row, and is told so ever after; otherwise both tables stay as they were. */
  lemma BindOutcome(st: State, h: Handle, now: real)
    requires Settles(st, h)
    ensures var s, Ticket(n, email) := AfterBind(st, h), st.redeemed[h];
            if && email in st.accounts && n in st.claims && st.claims[n].email == Some(email)
               && (st.claims[n].owner.None? || st.claims[n].owner == Some(st.accounts[email]))
            then
              && StatusOf(s.claims, s.challenges, n, now) == Status(Owned, Some(email), false)
              && s.claims[n].owner == Some(st.accounts[email]) && s.claims[n].verified && n !in s.challenges
            else s.claims == st.claims && s.challenges == st.challenges
  {
  }

  /** Declining takes back the offer its own link confirms and no later one: no owner is lost, and
      a node without one is told its address and that nothing is pending. */
  lemma DeclineOutcome(st: State, h: Handle, now: real)
    requires Settles(st, h)
    ensures var s, n := AfterDecline(st, h), st.redeemed[h].node;
            && s.claims == st.claims
            && if Names(st, n, h) then
                 s.challenges == st.challenges - {n} && !StatusOf(s.claims, s.challenges, n, now).state.Pending?
               else s.challenges == st.challenges
  {
  }

  /** An administrator's choice, an owner's release and a bounce, as the node is told of them. */
  lemma AssignOutcome(st: State, n: Node, owner: Option<string>, now: real)
    ensures var s := AfterAssign(st, n, owner);
            var told := StatusOf(s.claims, s.challenges, n, now);
            && OwnerOf(s, n) == owner
            && (owner.Some? && OwnerOf(st, n) == owner ==> s == st)
            && (owner.Some? && OwnerOf(st, n) != owner ==>
                  && told == Status(Owned, None, false)
                  && s.claims[n] == Claim(owner, None, false, false) && n !in s.challenges)
            && (owner.None? ==> told == Status(Unclaimed, None, false) && n !in s.challenges)
  {
  }

  /** An address has one account for good: its first enrolment opens it, and no step closes it or
      makes it another's. */
  lemma AccountsAreForGood(st: State, e: Event)
    ensures Step(st, e).accounts
         == if e.Enrol? && e.email !in st.accounts then st.accounts[e.email := e.user] else st.accounts
  {
    match e
    case Bind(h, _) => BindOpensNoAccount(st, h);
    case Decline(h, _) => DeclineOpensNoAccount(st, h);
    case Put(_, _, _, _) => RequestOpensNoAccount(st, e);
    case Resend(_, _, _) => RequestOpensNoAccount(st, e);
    case Displace(_, _) => RequestOpensNoAccount(st, e);
    case Mint(n, h, _) => MintOpensNoAccount(st, n, h);
    case Commit(n, _) => CommitOpensNoAccount(st, n);
    case Deliver(n, sent, _) => DeliverOpensNoAccount(st, n, sent);
    case Assign(_, _, _) => StoreOpensNoAccount(st, e);
    case Release(_, _, _) => StoreOpensNoAccount(st, e);
    case Bounce(_, _, _) => StoreOpensNoAccount(st, e);
    case SignIn(_, _, _) => ClickOpensNoAccount(st, e);
    case Click(_, _) => ClickOpensNoAccount(st, e);
    case _ =>
  }

  lemma ClickOpensNoAccount(st: State, e: Event)
    requires e.SignIn? || e.Click?
    ensures Step(st, e).accounts == st.accounts
  {
  }

  lemma BindOpensNoAccount(st: State, h: Handle)
    ensures AfterBind(st, h).accounts == st.accounts
  {
  }

  lemma DeclineOpensNoAccount(st: State, h: Handle)
    ensures AfterDecline(st, h).accounts == st.accounts
  {
  }

  lemma RequestOpensNoAccount(st: State, e: Event)
    requires e.Put? || e.Resend? || e.Displace?
    ensures Step(st, e).accounts == st.accounts
  {
  }

  lemma MintOpensNoAccount(st: State, n: Node, h: Handle)
    ensures AfterMint(st, n, h).accounts == st.accounts
  {
  }

  lemma CommitOpensNoAccount(st: State, n: Node)
    ensures AfterCommit(st, n).accounts == st.accounts
  {
  }

  lemma DeliverOpensNoAccount(st: State, n: Node, sent: bool)
    ensures AfterDeliver(st, n, sent).accounts == st.accounts
  {
  }

  lemma StoreOpensNoAccount(st: State, e: Event)
    requires e.Assign? || e.Release? || e.Bounce?
    ensures Step(st, e).accounts == st.accounts
  {
  }

  lemma ReleaseOutcome(st: State, n: Node, user: string, now: real)
    ensures var s := AfterRelease(st, n, user);
            if OwnerOf(st, n) == Some(user) then
              StatusOf(s.claims, s.challenges, n, now) == Status(Unclaimed, None, false) && n !in s.challenges
            else s == st
  {
  }

  lemma BounceOutcome(st: State, n: Node, email: string, now: real)
    ensures var s := AfterBounce(st, n, email);
            if n in st.claims && st.claims[n].email == Some(email) then
              && OwnerOf(s, n) == OwnerOf(st, n) && n !in s.challenges
              && (n in st.challenges ==> st.challenges[n].handle !in s.rows)
              && StatusOf(s.claims, s.challenges, n, now)
                 == if OwnerOf(st, n).Some? then Status(Owned, Some(email), false) else Status(Unclaimed, Some(email), true)
            else s == st
  {
  }

  // ── mails and confirmations ───────────────────────────────────────────────

  /** A request in progress is a mail its node has asked for and not had. */
  ghost predicate Owed(st: State) {
    forall n: Node :: st.mailed[n] + (if n in st.phases then 1 else 0) <= st.asked[n]
  }

  /** The address a node is told is the one on file, whichever row it was read from. */
  lemma StatusTellsTheAddress(st: State, n: Node, now: real)
    requires Sound(st)
    ensures StatusOf(st.claims, st.challenges, n, now).email == if n in st.claims then st.claims[n].email else None
  {
  }

  lemma PutKeepsOwed(st: State, n: Node, email: string, now: real, admitted: bool)
    requires Sound(st) && Owed(st)
    ensures Owed(AfterPut(st, n, email, now, admitted))
  {
  }

  lemma ResendKeepsOwed(st: State, n: Node, now: real, admitted: bool)
    requires Owed(st)
    ensures Owed(AfterResend(st, n, now, admitted))
  {
  }

  lemma DeliverKeepsOwed(st: State, n: Node, sent: bool)
    requires Owed(st)
    ensures Owed(AfterDeliver(st, n, sent))
  {
  }

  lemma StepKeepsOwed(st: State, e: Event)
    requires Sound(st) && Owed(st)
    ensures Owed(Step(st, e))
  {
    match e
    case Put(n, email, at, admitted) => PutKeepsOwed(st, n, email, at, admitted);
    case Deliver(n, sent, _) => DeliverKeepsOwed(st, n, sent);
    case Resend(n, at, admitted) => ResendKeepsOwed(st, n, at, admitted);
    case Displace(_, _) => RequestMailsNothing(st, e);
    case Mint(_, _, _) => RequestMailsNothing(st, e);
    case Commit(_, _) => RequestMailsNothing(st, e);
    case Crash(_, _) => RequestMailsNothing(st, e);
    case Enrol(_, _, _) =>
    case Bind(h, _) => BindMailsNothing(st, h);
    case Decline(h, _) => DeclineMailsNothing(st, h);
    case Assign(_, _, _) => StoreMailsNothing(st, e);
    case Release(_, _, _) => StoreMailsNothing(st, e);
    case _ => OthersMailNothing(st, e);
  }

  lemma RequestMailsNothing(st: State, e: Event)
    requires e.Displace? || e.Mint? || e.Commit? || e.Crash?
    ensures Step(st, e).mailed == st.mailed && Step(st, e).asked == st.asked
    ensures Step(st, e).phases.Keys <= st.phases.Keys
  {
  }

  lemma BindMailsNothing(st: State, h: Handle)
    ensures var s := AfterBind(st, h); s.mailed == st.mailed && s.asked == st.asked && s.phases == st.phases
  {
  }

  lemma DeclineMailsNothing(st: State, h: Handle)
    ensures var s := AfterDecline(st, h); s.mailed == st.mailed && s.asked == st.asked && s.phases == st.phases
  {
  }

  lemma StoreMailsNothing(st: State, e: Event)
    requires e.Assign? || e.Release?
    ensures Step(st, e).mailed == st.mailed && Step(st, e).asked == st.asked && Step(st, e).phases == st.phases
  {
  }

  lemma OthersMailNothing(st: State, e: Event)
    requires e.SignIn? || e.Click? || e.Bounce?
    ensures Step(st, e).mailed == st.mailed && Step(st, e).asked == st.asked && Step(st, e).phases == st.phases
  {
    match e
    case SignIn(_, _, _) =>
    case Click(_, _) =>
    case Bounce(_, _, _) =>
  }

  /** Over every run a node is mailed no more often than it was offered a new address or
      asked for the mail again. */
  lemma {:induction false} MailsAreAskedFor(events: seq<Event>)
    ensures Owed(Run(events)) && Run(events).mailed <= Run(events).asked
  {
    if events != [] {
      var st := Run(events[..|events| - 1]);
      MailsAreAskedFor(events[..|events| - 1]);
      RunIsSound(events[..|events| - 1]);
      StepKeepsOwed(st, events[|events| - 1]);
    }
  }

  /** Somebody spent a link sent to this address about this node. */
  ghost predicate Clicked(st: State, n: Node, email: string) {
    exists h :: h in st.redeemed && st.redeemed[h] == Ticket(n, email)
  }

  ghost predicate Earned(st: State) {
    forall n :: n in st.claims && st.claims[n].verified ==>
      st.claims[n].email.Some? && Clicked(st, n, st.claims[n].email.value)
  }

  /** A step keeps every ticket and confirms nothing a ticket does not name. */
  ghost predicate Honest(st: State, s: State) {
    && (forall h :: h in st.redeemed ==> h in s.redeemed && s.redeemed[h] == st.redeemed[h])
    && (forall n :: n in s.claims && s.claims[n].verified ==>
          || (n in st.claims && st.claims[n].verified && st.claims[n].email == s.claims[n].email)
          || (s.claims[n].email.Some? && Clicked(s, n, s.claims[n].email.value)))
  }

  lemma HonestKeepsEarned(st: State, s: State)
    requires Earned(st) && Honest(st, s)
    ensures Earned(s)
  {
  }

  lemma BindIsHonest(st: State, h: Handle)
    ensures Honest(st, AfterBind(st, h))
  {
  }

  lemma ClickIsHonest(st: State, h: Handle, now: real)
    requires Sound(st)
    ensures Honest(st, AfterClick(st, h, now))
  {
  }

  lemma CommitIsHonest(st: State, n: Node)
    ensures Honest(st, AfterCommit(st, n))
  {
  }

  lemma AssignIsHonest(st: State, n: Node, owner: Option<string>)
    ensures Honest(st, AfterAssign(st, n, owner))
  {
  }

  lemma ReleaseIsHonest(st: State, n: Node, user: string)
    ensures Honest(st, AfterRelease(st, n, user))
  {
  }

  lemma BounceIsHonest(st: State, n: Node, email: string)
    ensures Honest(st, AfterBounce(st, n, email))
  {
  }

  lemma PutIsHonest(st: State, n: Node, email: string, now: real, admitted: bool)
    ensures Honest(st, AfterPut(st, n, email, now, admitted))
  {
  }

  lemma ResendIsHonest(st: State, n: Node, now: real, admitted: bool)
    ensures Honest(st, AfterResend(st, n, now, admitted))
  {
  }

  lemma RequestIsHonest(st: State, e: Event)
    requires e.Displace? || e.Mint? || e.Deliver? || e.Crash?
    ensures Honest(st, Step(st, e))
  {
  }

  lemma SignInIsHonest(st: State, email: string, now: real, h: Handle)
    ensures Honest(st, AfterSignIn(st, email, now, h))
  {
  }

  lemma DeclineIsHonest(st: State, h: Handle)
    ensures Honest(st, AfterDecline(st, h))
  {
  }

  lemma StoreIsHonest(st: State, e: Event)
    requires e.Bind? || e.Decline? || e.Assign? || e.Release? || e.Bounce?
    ensures Honest(st, Step(st, e))
  {
    match e
    case Bind(h, _) => BindIsHonest(st, h);
    case Decline(h, _) => DeclineIsHonest(st, h);
    case Assign(n, owner, _) => AssignIsHonest(st, n, owner);
    case Release(n, user, _) => ReleaseIsHonest(st, n, user);
    case Bounce(n, email, _) => BounceIsHonest(st, n, email);
  }

  lemma StepIsHonest(st: State, e: Event)
    requires Sound(st)
    ensures Honest(st, Step(st, e))
  {
    match e
    case Put(n, email, at, admitted) => PutIsHonest(st, n, email, at, admitted);
    case Resend(n, at, admitted) => ResendIsHonest(st, n, at, admitted);
    case Commit(n, _) => CommitIsHonest(st, n);
    case SignIn(email, at, h) => SignInIsHonest(st, email, at, h);
    case Enrol(_, _, _) =>
    case Click(h, at) => ClickIsHonest(st, h, at);
    case Bind(_, _) => StoreIsHonest(st, e);
    case Decline(_, _) => StoreIsHonest(st, e);
    case Assign(_, _, _) => StoreIsHonest(st, e);
    case Release(_, _, _) => StoreIsHonest(st, e);
    case Bounce(_, _, _) => StoreIsHonest(st, e);
    case _ => RequestIsHonest(st, e);
  }

  /** Over every run an address stands confirmed only if a link sent to it about that node was
      spent. */
  lemma {:induction false} ConfirmationsAreClicked(events: seq<Event>)
    ensures Earned(Run(events))
  {
    if events != [] {
      ConfirmationsAreClicked(events[..|events| - 1]);
      RunIsSound(events[..|events| - 1]);
      StepIsHonest(Run(events[..|events| - 1]), events[|events| - 1]);
      HonestKeepsEarned(Run(events[..|events| - 1]), Run(events));
    }
  }

  function OwnerOf(st: State, n: Node): Option<string> {
    if n in st.claims then st.claims[n].owner else None
  }

  predicate HandsOver(e: Event, n: Node) {
    (e.Assign? || e.Release?) && e.node == n
  }

  /** A node changes hands only by an administrator, by its owner's release, or, while it has
      no owner, to the account behind the very address it is offering, by one spent link that
      was sent there. */
  lemma OwnershipIsEarned(st: State, e: Event, n: Node)
    requires OwnerOf(Step(st, e), n) != OwnerOf(st, n) && !HandsOver(e, n)
    ensures e.Bind? && OwnerOf(st, n).None? && n in st.claims && st.claims[n].email.Some?
    ensures var email := st.claims[n].email.value;
            && Settles(st, e.handle) && !Settles(Step(st, e), e.handle) && st.redeemed[e.handle] == Ticket(n, email)
            && email in st.accounts && OwnerOf(Step(st, e), n) == Some(st.accounts[email])
  {
    if e.Put? || e.Resend? || e.Displace? || e.Mint? || e.Deliver? || e.Crash? {
      RequestKeepsClaims(st, e);
    } else if e.Commit? {
      CommitKeepsOwners(st, e.node);
    } else if !e.Bind? {
      OthersKeepOwners(st, e, n);
    }
  }

  lemma RequestKeepsClaims(st: State, e: Event)
    requires e.Put? || e.Resend? || e.Displace? || e.Mint? || e.Deliver? || e.Crash?
    ensures Step(st, e).claims == st.claims && Step(st, e).challenges == st.challenges
  {
    match e
    case Put(_, _, _, _) =>
    case Resend(_, _, _) =>
    case Displace(_, _) =>
    case Mint(_, _, _) =>
    case Deliver(_, _, _) =>
    case Crash(_, _) =>
  }

  lemma CommitKeepsOwners(st: State, n: Node)
    ensures forall m :: OwnerOf(AfterCommit(st, n), m) == OwnerOf(st, m)
  {
  }

  lemma OthersKeepOwners(st: State, e: Event, n: Node)
    requires e.SignIn? || e.Enrol? || e.Click? || e.Decline? || e.Assign? || e.Release? || e.Bounce?
    requires !HandsOver(e, n)
    ensures OwnerOf(Step(st, e), n) == OwnerOf(st, n)
  {
    match e
    case SignIn(_, _, _) =>
    case Enrol(_, _, _) =>
    case Click(_, _) =>
    case Decline(_, _) =>
    case Assign(_, _, _) =>
    case Release(_, _, _) =>
    case Bounce(_, _, _) =>
  }

  // ── one live link per node ────────────────────────────────────────────────

  predicate Names(st: State, n: Node, h: Handle) {
    n in st.challenges && st.challenges[n].handle == h
  }

  /** A link in a mailbox that a click at this moment would redeem for n. */
  predicate Redeemable(st: State, h: Handle, n: Node, t: real) {
    h in st.delivered && Redeems(st.rows, h, CLAIM, t) && st.rows[h].node == Some(n)
  }

  /** From this moment on, every link that can be redeemed is the one its node's row names. */
  ghost predicate Accounted(st: State, from: real) {
    forall h, n, t :: t >= from && Redeemable(st, h, n, t) ==> Names(st, n, h)
  }

  /** n's row names a link that can still be redeemed. */
  predicate Loses(st: State, n: Node, t: real) {
    n in st.challenges && Redeemable(st, st.challenges[n].handle, n, t)
  }

  /** Mailing now would put a live link in a mailbox after its row was dropped. */
  predicate Strays(st: State, n: Node, t: real) {
    && n in st.phases && st.phases[n].Committed?
    && Redeems(st.rows, st.phases[n].handle, CLAIM, t) && !Names(st, n, st.phases[n].handle)
  }

  /** What must not be done at this moment: dropping a row whose link is live in a mailbox, or
      mailing a live link that no row names any more. */
  predicate Hazard(st: State, e: Event) {
    match e
    case Bind(h, t) => Settles(st, h) && Binds(st, st.redeemed[h]) && Loses(st, st.redeemed[h].node, t)
    case Assign(n, owner, t) => Reassigns(st, n, owner) && Loses(st, n, t)
    case Release(n, user, t) => Releases(st, n, user) && Loses(st, n, t)
    case Deliver(n, sent, t) => sent && Strays(st, n, t)
    case _ => false
  }

  /** Once a request has killed the link its row named, its node has none in a mailbox. */
  predicate Tracked(st: State, h: Handle, n: Node, t: real) {
    Redeemable(st, h, n, t) ==> Names(st, n, h) && (n !in st.phases || st.phases[n].Admitted?)
  }

  ghost predicate Tidy(st: State, t: real) {
    Sound(st) && forall h, n :: Tracked(st, h, n, t)
  }

  lemma StaysTidy(st: State, t: real, later: real)
    requires Tidy(st, t) && t <= later
    ensures Tidy(st, later)
  {
    forall h, n ensures Tracked(st, h, n, later) { assert Tracked(st, h, n, t); }
  }

  lemma PutKeepsTidy(st: State, n: Node, email: string, now: real, admitted: bool, t: real)
    requires Tidy(st, t)
    ensures Tidy(AfterPut(st, n, email, now, admitted), t)
  {
    BeginIsSound(st, n, Some(email), now, AfterPut(st, n, email, now, admitted).asked);
    forall k, m ensures Tracked(AfterPut(st, n, email, now, admitted), k, m, t) { assert Tracked(st, k, m, t); }
  }

  lemma ResendKeepsTidy(st: State, n: Node, now: real, admitted: bool, t: real)
    requires Tidy(st, t)
    ensures Tidy(AfterResend(st, n, now, admitted), t)
  {
    BeginIsSound(st, n, StatusOf(st.claims, st.challenges, n, now).email, now, AfterResend(st, n, now, admitted).asked);
    forall k, m ensures Tracked(AfterResend(st, n, now, admitted), k, m, t) { assert Tracked(st, k, m, t); }
  }

  lemma DisplaceKeepsTidy(st: State, n: Node, t: real)
    requires Tidy(st, t)
    ensures Tidy(AfterDisplace(st, n), t)
  {
    DisplaceIsSound(st, n);
    forall k, m ensures Tracked(AfterDisplace(st, n), k, m, t) { assert Tracked(st, k, m, t); }
  }

  lemma MintKeepsTidy(st: State, n: Node, h: Handle, t: real)
    requires Tidy(st, t)
    ensures Tidy(AfterMint(st, n, h), t)
  {
    MintIsSound(st, n, h);
    forall k, m ensures Tracked(AfterMint(st, n, h), k, m, t) { assert Tracked(st, k, m, t); }
  }

  lemma CommitKeepsTidy(st: State, n: Node, t: real)
    requires Tidy(st, t) && n in st.phases && st.phases[n].Minted?
    ensures Tidy(AfterCommit(st, n), t)
  {
    CommitIsSound(st, n);
    forall k, m ensures Tracked(AfterCommit(st, n), k, m, t) { assert Tracked(st, k, m, t); }
  }

  lemma CapKeepsTidy(st: State, n: Node, t: real)
    requires Tidy(st, t) && n in st.phases && st.phases[n].Capped?
    ensures Tidy(AfterCommit(st, n), t)
  {
    CapIsSound(st, n);
    forall k, m ensures Tracked(AfterCommit(st, n), k, m, t) { assert Tracked(st, k, m, t); }
  }

  lemma DeliverKeepsTidy(st: State, n: Node, sent: bool, t: real)
    requires Tidy(st, t) && n in st.phases && st.phases[n].Committed? && !(sent && Strays(st, n, t))
    ensures Tidy(AfterDeliver(st, n, sent), t)
  {
    DeliverIsSound(st, n, sent);
    assert PhaseSound(st, n);
    forall k, m ensures Tracked(AfterDeliver(st, n, sent), k, m, t) { assert Tracked(st, k, m, t); }
  }

  lemma RequestKeepsTidy(st: State, e: Event)
    requires Tidy(st, e.at) && !Hazard(st, e) && (e.Displace? || e.Mint? || e.Commit? || e.Deliver? || e.Crash?)
    ensures Tidy(Step(st, e), e.at)
  {
    match e
    case Displace(n, t) => DisplaceKeepsTidy(st, n, t);
    case Mint(n, h, t) => MintKeepsTidy(st, n, h, t);
    case Commit(n, t) =>
      if n in st.phases && st.phases[n].Minted? { CommitKeepsTidy(st, n, t); }
      if n in st.phases && st.phases[n].Capped? { CapKeepsTidy(st, n, t); }
    case Deliver(n, sent, t) => if n in st.phases && st.phases[n].Committed? { DeliverKeepsTidy(st, n, sent, t); }
    case Crash(n, t) =>
      EndIsSound(st, n);
      forall k, m ensures Tracked(st.(phases := st.phases - {n}), k, m, t) { assert Tracked(st, k, m, t); }
  }

  lemma SignInKeepsTidy(st: State, email: string, now: real, h: Handle, t: real)
    requires Tidy(st, t)
    ensures Tidy(AfterSignIn(st, email, now, h), t)
  {
    if h in st.minted { return; }
    IssuingIsSound(st, email, SIGNIN, None, now, h);
    forall k, m ensures Tracked(AfterSignIn(st, email, now, h), k, m, t) { assert Tracked(st, k, m, t); }
  }

  lemma EnrolKeepsTidy(st: State, email: string, user: string, t: real)
    requires Tidy(st, t)
    ensures Tidy(AfterEnrol(st, email, user), t)
  {
    EnrolIsSound(st, email, user);
    forall k, m ensures Tracked(AfterEnrol(st, email, user), k, m, t) { assert Tracked(st, k, m, t); }
  }

  lemma ClickKeepsTidy(st: State, h: Handle, now: real, t: real)
    requires Tidy(st, t)
    ensures Tidy(AfterClick(st, h, now), t)
  {
    ClickIsSound(st, h, now);
    forall k, m ensures Tracked(AfterClick(st, h, now), k, m, t) { assert Tracked(st, k, m, t); }
  }

  lemma DeclineKeepsTidy(st: State, h: Handle, t: real)
    requires Tidy(st, t)
    ensures Tidy(AfterDecline(st, h), t)
  {
    DeclineIsSound(st, h);
    if h in st.redeemed { assert TicketSound(st, h); }
    forall k, m ensures Tracked(AfterDecline(st, h), k, m, t) { assert Tracked(st, k, m, t); }
  }

  lemma BounceKeepsTidy(st: State, n: Node, email: string, t: real)
    requires Tidy(st, t)
    ensures Tidy(AfterBounce(st, n, email), t)
  {
    BounceIsSound(st, n, email);
    forall k, m ensures Tracked(AfterBounce(st, n, email), k, m, t) { assert Tracked(st, k, m, t); }
  }

  lemma BindKeepsTidy(st: State, h: Handle, t: real)
    requires Tidy(st, t) && !Hazard(st, Bind(h, t))
    ensures Tidy(AfterBind(st, h), t)
  {
    BindIsSound(st, h);
    forall k, m ensures Tracked(AfterBind(st, h), k, m, t) { assert Tracked(st, k, m, t); }
  }

  lemma DropKeepsTidy(st: State, e: Event)
    requires Tidy(st, e.at) && !Hazard(st, e) && (e.Assign? || e.Release?)
    ensures Tidy(Step(st, e), e.at)
  {
    StepIsSound(st, e);
    forall k, m ensures Tracked(Step(st, e), k, m, e.at) { assert Tracked(st, k, m, e.at); }
  }

  lemma StepKeepsTidy(st: State, e: Event)
    requires Tidy(st, e.at) && !Hazard(st, e)
    ensures Tidy(Step(st, e), e.at)
  {
    match e
    case Put(n, email, t, admitted) => PutKeepsTidy(st, n, email, t, admitted, t);
    case Resend(n, t, admitted) => ResendKeepsTidy(st, n, t, admitted, t);
    case SignIn(email, t, h) => SignInKeepsTidy(st, email, t, h, t);
    case Enrol(email, user, t) => EnrolKeepsTidy(st, email, user, t);
    case Click(h, t) => ClickKeepsTidy(st, h, t, t);
    case Decline(h, t) => DeclineKeepsTidy(st, h, t);
    case Bounce(n, email, t) => BounceKeepsTidy(st, n, email, t);
    case Bind(h, t) => BindKeepsTidy(st, h, t);
    case Assign(_, _, _) => DropKeepsTidy(st, e);
    case Release(_, _, _) => DropKeepsTidy(st, e);
    case _ => RequestKeepsTidy(st, e);
  }

  /** A hazardous step leaves a link that can be redeemed then and that no row names. */
  lemma HazardLosesTrack(st: State, e: Event) returns (h: Handle, n: Node)
    requires Sound(st) && Hazard(st, e)
    ensures Redeemable(Step(st, e), h, n, e.at) && !Names(Step(st, e), n, h)
  {
    if e.Deliver? {
      assert PhaseSound(st, e.node);
      h, n := st.phases[e.node].handle, e.node;
    } else {
      n := if e.Bind? then st.redeemed[e.handle].node else e.node;
      h := st.challenges[n].handle;
    }
  }

  /** A clock that never runs back, and has reached `now`. */
  predicate Monotone(events: seq<Event>, now: real) {
    events == [] || (events[|events| - 1].at <= now && Monotone(events[..|events| - 1], events[|events| - 1].at))
  }

  predicate Careful(events: seq<Event>) {
    if events == [] then true
    else Careful(events[..|events| - 1]) && !Hazard(Run(events[..|events| - 1]), events[|events| - 1])
  }

  /** After every step, and at every moment from it on. */
  ghost predicate AlwaysAccounted(events: seq<Event>) {
    events == [] || (Accounted(Run(events), events[|events| - 1].at) && AlwaysAccounted(events[..|events| - 1]))
  }

  lemma TidyIsAccounted(st: State, t: real)
    requires Tidy(st, t)
    ensures Accounted(st, t)
  {
    forall h, n, later | later >= t && Redeemable(st, h, n, later) ensures Names(st, n, h) {
      assert Tracked(st, h, n, t);
    }
  }

  lemma {:induction false} CarefulRunsAreTidy(events: seq<Event>, now: real)
    requires Careful(events) && Monotone(events, now)
    ensures Tidy(Run(events), now) && AlwaysAccounted(events)
  {
    if events != [] {
      var before, e := events[..|events| - 1], events[|events| - 1];
      CarefulRunsAreTidy(before, e.at);
      StepKeepsTidy(Run(before), e);
      TidyIsAccounted(Run(events), e.at);
      StaysTidy(Run(events), e.at, now);
    }
  }

  /** On a clock that never runs back, every link that can be redeemed, at every moment from
      every step of a run on, is the one its node's row names, if and only if no step dropped a
      row while the link it named was live in a mailbox, or mailed a live link no row named. */
  lemma {:induction false} AccountedExactlyWhenCareful(events: seq<Event>, now: real)
    requires Monotone(events, now)
    ensures AlwaysAccounted(events) <==> Careful(events)
  {
    if Careful(events) {
      CarefulRunsAreTidy(events, now);
    } else {
      var before, e := events[..|events| - 1], events[|events| - 1];
      AccountedExactlyWhenCareful(before, e.at);
      if Careful(before) {
        RunIsSound(before);
        var h, n := HazardLosesTrack(Run(before), e);
      }
    }
  }

  /** In such a run, a crash allowed after any step, a node has at any moment at most one link
      that can be redeemed, and its challenge row names it. */
  lemma OneRedeemableLinkPerNode(events: seq<Event>, h: Handle, k: Handle, n: Node, now: real)
    requires Careful(events) && Monotone(events, now)
    requires Redeemable(Run(events), h, n, now) && Redeemable(Run(events), k, n, now)
    ensures h == k && Names(Run(events), n, h)
  {
    CarefulRunsAreTidy(events, now);
    assert Tracked(Run(events), h, n, now) && Tracked(Run(events), k, n, now);
  }

  predicate DropsRows(e: Event) {
    e.Bind? || e.Assign? || e.Release?
  }

  /** The row that names a link about to be mailed is still there. */
  predicate OnRecord(st: State, n: Node)
    requires n in st.phases
  {
    st.phases[n].Committed? && IsUnspent(st.rows, st.phases[n].handle) ==> Names(st, n, st.phases[n].handle)
  }

  ghost predicate Recording(st: State) {
    forall n :: n in st.phases ==> OnRecord(st, n)
  }

  lemma MintKeepsRecord(st: State, n: Node, h: Handle)
    requires Sound(st) && Recording(st)
    ensures Recording(AfterMint(st, n, h))
  {
    var s := AfterMint(st, n, h);
    forall m | m in s.phases ensures OnRecord(s, m) { assert m in st.phases && OnRecord(st, m) && PhaseSound(st, m); }
  }

  lemma CommitKeepsRecord(st: State, n: Node)
    requires Recording(st)
    ensures Recording(AfterCommit(st, n))
  {
    var s := AfterCommit(st, n);
    forall m | m in s.phases && m != n ensures OnRecord(s, m) { OthersKeepRecord(st, n, m); }
  }

  lemma OthersKeepRecord(st: State, n: Node, m: Node)
    requires m in st.phases && OnRecord(st, m) && m != n
    ensures var s := AfterCommit(st, n); m in s.phases && OnRecord(s, m)
  {
  }

  lemma SignInKeepsRecord(st: State, email: string, now: real, h: Handle)
    requires Sound(st) && Recording(st)
    ensures Recording(AfterSignIn(st, email, now, h))
  {
    var s := AfterSignIn(st, email, now, h);
    forall m | m in s.phases ensures OnRecord(s, m) { assert OnRecord(st, m) && PhaseSound(st, m); }
  }

  lemma DeclineKeepsRecord(st: State, h: Handle)
    requires Sound(st) && Recording(st)
    ensures Recording(AfterDecline(st, h))
  {
    var s := AfterDecline(st, h);
    if Settles(st, h) && DeclineDrops(st, h) {
      assert TicketSound(st, h);
      DropKeepsRecord(st, s, st.redeemed[h].node);
    } else {
      FainterKeepsRecord(st, s);
    }
  }

  lemma BounceKeepsRecord(st: State, n: Node, email: string)
    requires Recording(st)
    ensures Recording(AfterBounce(st, n, email))
  {
    var s := AfterBounce(st, n, email);
    forall m | m in s.phases ensures OnRecord(s, m) { assert OnRecord(st, m); }
  }

  /** The rows that name links stay, and no link about to be mailed is new. */
  lemma FainterKeepsRecord(st: State, s: State)
    requires Recording(st) && s.challenges == st.challenges
    requires forall k :: IsUnspent(s.rows, k) ==> IsUnspent(st.rows, k)
    requires forall m :: m in s.phases && s.phases[m].Committed? ==> m in st.phases && s.phases[m] == st.phases[m]
    ensures Recording(s)
  {
    forall m | m in s.phases ensures OnRecord(s, m) { if s.phases[m].Committed? { assert OnRecord(st, m); } }
  }

  /** A row goes whose link was spent. */
  lemma DropKeepsRecord(st: State, s: State, n: Node)
    requires Recording(st) && n in st.challenges && !IsUnspent(st.rows, st.challenges[n].handle)
    requires s.rows == st.rows && s.phases == st.phases && s.challenges == st.challenges - {n}
    ensures Recording(s)
  {
    forall m | m in s.phases ensures OnRecord(s, m) { assert OnRecord(st, m); }
  }

  lemma PutKeepsRecord(st: State, n: Node, email: string, now: real, admitted: bool)
    requires Recording(st)
    ensures Recording(AfterPut(st, n, email, now, admitted))
  {
    FainterKeepsRecord(st, AfterPut(st, n, email, now, admitted));
  }

  lemma ResendKeepsRecord(st: State, n: Node, now: real, admitted: bool)
    requires Recording(st)
    ensures Recording(AfterResend(st, n, now, admitted))
  {
    FainterKeepsRecord(st, AfterResend(st, n, now, admitted));
  }

  lemma DisplaceKeepsRecord(st: State, n: Node)
    requires Recording(st)
    ensures Recording(AfterDisplace(st, n))
  {
    FainterKeepsRecord(st, AfterDisplace(st, n));
  }

  lemma DeliverKeepsRecord(st: State, n: Node, sent: bool)
    requires Recording(st)
    ensures Recording(AfterDeliver(st, n, sent))
  {
    FainterKeepsRecord(st, AfterDeliver(st, n, sent));
  }

  lemma ClickKeepsRecord(st: State, h: Handle, now: real)
    requires Recording(st)
    ensures Recording(AfterClick(st, h, now))
  {
    FainterKeepsRecord(st, AfterClick(st, h, now));
  }

  /** While nothing drops rows, the row that names a link about to be mailed is still there. */
  lemma StepKeepsRecord(st: State, e: Event)
    requires Sound(st) && !DropsRows(e) && Recording(st)
    ensures Recording(Step(st, e))
  {
    match e
    case Put(n, email, t, admitted) => PutKeepsRecord(st, n, email, t, admitted);
    case Resend(n, t, admitted) => ResendKeepsRecord(st, n, t, admitted);
    case Displace(n, _) => DisplaceKeepsRecord(st, n);
    case Mint(n, h, _) => MintKeepsRecord(st, n, h);
    case Commit(n, _) => CommitKeepsRecord(st, n);
    case Deliver(n, sent, _) => DeliverKeepsRecord(st, n, sent);
    case SignIn(email, t, h) => SignInKeepsRecord(st, email, t, h);
    case Click(h, t) => ClickKeepsRecord(st, h, t);
    case Decline(h, _) => DeclineKeepsRecord(st, h);
    case Bounce(n, email, _) => BounceKeepsRecord(st, n, email);
    case _ => FainterKeepsRecord(st, Step(st, e));
  }

  /** Claim requests, crashes, sign-ins, clicks, declines and bounces are always careful. */
  lemma {:induction false} RequestsAreCareful(events: seq<Event>)
    requires forall i :: 0 <= i < |events| ==> !DropsRows(events[i])
    ensures Careful(events) && Recording(Run(events))
  {
    if events != [] {
      var before, e := events[..|events| - 1], events[|events| - 1];
      RequestsAreCareful(before);
      RunIsSound(before);
      StepKeepsRecord(Run(before), e);
      if e.Deliver? && e.node in Run(before).phases { assert OnRecord(Run(before), e.node); }
    }
  }

  // ── a whole request ───────────────────────────────────────────────────────

  /** The commits of `_start_claim`, in order. */
  function Filed(st: State, n: Node, h: Handle): State {
    AfterCommit(AfterMint(AfterDisplace(st, n), n, h), n)
  }

  /** And then the mail. */
  function Offer(st: State, n: Node, h: Handle, sent: bool): State {
    AfterDeliver(Filed(st, n, h), n, sent)
  }

  function Requested(events: seq<Event>, n: Node, h: Handle, sent: bool, t: real): seq<Event> {
    events + [Displace(n, t)] + [Mint(n, h, t)] + [Commit(n, t)] + [Deliver(n, sent, t)]
  }

  lemma More(events: seq<Event>, e: Event)
    ensures Run(events + [e]) == Step(Run(events), e)
    ensures Careful(events + [e]) == (Careful(events) && !Hazard(Run(events), e))
    ensures Monotone(events + [e], e.at) == Monotone(events, e.at)
  {
    assert (events + [e])[..|events|] == events;
  }

  lemma RequestRuns(events: seq<Event>, n: Node, h: Handle, sent: bool, t: real)
    ensures Run(Requested(events, n, h, sent, t)) == Offer(Run(events), n, h, sent)
    ensures Careful(Requested(events, n, h, sent, t)) ==> Careful(events)
    ensures Monotone(Requested(events, n, h, sent, t), t) == Monotone(events, t)
  {
    FirstHalfRuns(events, n, h, t);
    SecondHalfRuns(events + [Displace(n, t)] + [Mint(n, h, t)], n, sent, t);
  }

  lemma FirstHalfRuns(events: seq<Event>, n: Node, h: Handle, t: real)
    ensures var longer := events + [Displace(n, t)] + [Mint(n, h, t)];
            && Run(longer) == AfterMint(AfterDisplace(Run(events), n), n, h)
            && (Careful(longer) ==> Careful(events)) && Monotone(longer, t) == Monotone(events, t)
  {
    More(events, Displace(n, t));
    More(events + [Displace(n, t)], Mint(n, h, t));
  }

  lemma SecondHalfRuns(events: seq<Event>, n: Node, sent: bool, t: real)
    ensures var longer := events + [Commit(n, t)] + [Deliver(n, sent, t)];
            && Run(longer) == AfterDeliver(AfterCommit(Run(events), n), n, sent)
            && (Careful(longer) ==> Careful(events)) && Monotone(longer, t) == Monotone(events, t)
  {
    More(events, Commit(n, t));
    More(events + [Commit(n, t)], Deliver(n, sent, t));
  }

  function Recorded(
      challenges: map<Node, Challenge>, n: Node, email: string, now: real, h: Handle, issued: bool): map<Node, Challenge>
  {
    if issued then challenges[n := Challenge(email, h, now + MAGIC_LINK_EXPIRY_S)] else challenges - {n}
  }

  lemma MintOutcome(st: State, n: Node, email: string, now: real, h: Handle)
    requires n in st.phases && st.phases[n] == Cleared(email, now) && h !in st.minted && h !in st.rows
    ensures var s, capped := AfterMint(st, n, h), AtCap(st.rows, email, CLAIM, now);
            && s.rows == Issue(st.rows, email, CLAIM, Some(n), now, h) && s.minted == st.minted[h := Some(n)]
            && s.claims == st.claims && s.challenges == st.challenges && s.delivered == st.delivered
            && n in s.phases && s.phases[n] == if capped then Capped(email) else Minted(email, now, h)
  {
    SweepKeepsOutstanding(st.rows, email, email, CLAIM, now, now);
  }

  lemma CommitOutcome(st: State, n: Node, email: string, now: real, h: Handle, issued: bool)
    requires n in st.phases && st.phases[n] == if issued then Minted(email, now, h) else Capped(email)
    ensures var s := AfterCommit(st, n);
            && s.rows == st.rows && s.minted == st.minted && s.delivered == st.delivered
            && s.claims == Nominated(st.claims, n, email)
            && s.challenges == Recorded(st.challenges, n, email, now, h, issued)
            && if issued then n in s.phases && s.phases[n] == Committed(email, h) else n !in s.phases
  {
  }

  /** The tables a request leaves behind when it runs to its end. */
  lemma OfferOutcome(st: State, n: Node, email: string, now: real, h: Handle, sent: bool)
    requires Sound(st) && n in st.phases && st.phases[n] == Admitted(email, now) && h !in st.minted
    ensures var s, rows := Offer(st, n, h, sent), Displaced(st.rows, st.challenges, n);
            && h !in rows && s.rows == Issue(rows, email, CLAIM, Some(n), now, h) && s.minted == st.minted[h := Some(n)]
            && s.claims == Nominated(st.claims, n, email) && n !in s.phases
            && s.challenges == Recorded(st.challenges, n, email, now, h, !AtCap(rows, email, CLAIM, now))
            && s.delivered == if sent && !AtCap(rows, email, CLAIM, now) then st.delivered + {h} else st.delivered
  {
    RowsAreMinted(st);
    var s1 := AfterDisplace(st, n);
    MintOutcome(s1, n, email, now, h);
    var s2, issued := AfterMint(s1, n, h), !AtCap(s1.rows, email, CLAIM, now);
    CommitOutcome(s2, n, email, now, h, issued);
  }

  /** A claim that starts for a node without an owner is told pending, with its address, for fifteen
      minutes from when its request began, and unclaimed with that address from then on; past the
      cap it is unclaimed at once. */
  lemma OfferedIsPendingForItsTime(st: State, n: Node, email: string, now: real, h: Handle, sent: bool, later: real)
    requires Sound(st) && n in st.phases && st.phases[n] == Admitted(email, now) && h !in st.minted
    requires n in st.claims ==>
               st.claims[n].owner.None? && (st.claims[n].undeliverable ==> st.claims[n].email != Some(email))
    ensures var s, capped := Offer(st, n, h, sent), AtCap(Displaced(st.rows, st.challenges, n), email, CLAIM, now);
            StatusOf(s.claims, s.challenges, n, later)
            == Status(if !capped && later < now + 900.0 then Pending else Unclaimed, Some(email), false)
  {
    OfferOutcome(st, n, email, now, h, sent);
  }

  /** A new address offered for a node without an owner, below the cap, puts the fresh link in
      the mailbox and its name in the row, and leaves every other link in date alone. */
  lemma OfferDelivers(st: State, n: Node, email: string, now: real, h: Handle)
    requires Sound(st) && n !in st.phases && AddressChanges(st, n, email) && n !in st.challenges
    requires h !in st.minted && !AtCap(st.rows, email, CLAIM, now)
    ensures var s := Offer(AfterPut(st, n, email, now, true), n, h, true);
            && Redeemable(s, h, n, now) && Names(s, n, h) && n !in s.phases && s.minted == st.minted[h := Some(n)]
            && s.delivered == st.delivered + {h}
            && s.rows == Issue(st.rows, email, CLAIM, Some(n), now, h)
  {
    var s0 := AfterPut(st, n, email, now, true);
    BeginIsSound(st, n, Some(email), now, s0.asked);
    assert n in s0.phases && s0.phases[n] == Admitted(email, now);
    OfferOutcome(s0, n, email, now, h, true);
    SweepKeepsOutstanding(st.rows, email, email, CLAIM, now, now);
  }

  /** An administrator's reassignment drops the row and leaves the link it named alone. Offered
      a new address before that link expires, the node has two links a click would redeem. */
  lemma AssignmentStrandsALink(
      st: State, n: Node, h: Handle, owner: Option<string>, email: string, now: real, k: Handle)
    requires Sound(st) && n !in st.phases && owner.None? && Redeemable(st, h, n, now)
    requires k !in st.minted && !AtCap(st.rows, email, CLAIM, now)
    ensures TwoLive(Offer(AfterPut(AfterAssign(st, n, owner), n, email, now, true), n, k, true), n, h, k, now)
  {
    AssignIsSound(st, n, owner);
    OfferDelivers(AfterAssign(st, n, owner), n, email, now, k);
    IssueKeepsLive(st.rows, email, Some(n), now, k, h);
  }

  /** Two links of one node in mailboxes, each of which redeems at this very moment. */
  predicate TwoLive(st: State, n: Node, h: Handle, k: Handle, t: real) {
    && h != k && Redeemable(st, h, n, t) && Redeemable(st, k, n, t)
    && Redeems(st.rows, h, CLAIM, t) && Redeems(st.rows, k, CLAIM, t)
  }

  lemma IssueKeepsLive(rows: Table, email: string, node: Option<Node>, now: real, k: Handle, h: Handle)
    requires Redeems(rows, h, CLAIM, now) && h != k
    ensures var after := Issue(rows, email, CLAIM, node, now, k); Redeems(after, h, CLAIM, now) && after[h] == rows[h]
  {
  }

  /** The same, as a run with the clock standing still. */
  lemma TwoRedeemableLinks() returns (events: seq<Event>)
    ensures Monotone(events, 0.0) && !Careful(events)
    ensures TwoLive(Run(events), "n", "h", "k", 0.0)
  {
    var put, clear := Put("n", "a@b", 0.0, true), Assign("n", None, 0.0);
    var offered := OneRedeemableLink(put);
    var cleared := ThenCleared(offered, clear, put);
    ThenOffered(cleared, Run(offered));
    events := Requested(cleared, "n", "k", true, 0.0);
  }

  lemma ThenOffered(cleared: seq<Event>, st: State)
    requires OneOut(st) && Monotone(cleared, 0.0) && !Careful(cleared)
    requires Run(cleared) == AfterPut(AfterAssign(st, "n", None), "n", "a@b", 0.0, true)
    ensures var events := Requested(cleared, "n", "k", true, 0.0);
            Monotone(events, 0.0) && !Careful(events) && TwoLive(Run(events), "n", "h", "k", 0.0)
  {
    AssignmentStrandsALink(st, "n", "h", None, "a@b", 0.0, "k");
    ThenMailed(cleared, Run(cleared));
  }

  lemma ThenMailed(cleared: seq<Event>, s: State)
    requires Run(cleared) == s && Monotone(cleared, 0.0) && !Careful(cleared)
    requires TwoLive(Offer(s, "n", "k", true), "n", "h", "k", 0.0)
    ensures var events := Requested(cleared, "n", "k", true, 0.0);
            Monotone(events, 0.0) && !Careful(events) && TwoLive(Run(events), "n", "h", "k", 0.0)
  {
    RequestRuns(cleared, "n", "k", true, 0.0);
  }

  lemma ThenCleared(offered: seq<Event>, clear: Event, put: Event) returns (events: seq<Event>)
    requires clear == Assign("n", None, 0.0) && put == Put("n", "a@b", 0.0, true)
    requires Monotone(offered, 0.0) && Redeemable(Run(offered), "h", "n", 0.0) && Names(Run(offered), "n", "h")
    ensures Monotone(events, 0.0) && !Careful(events)
    ensures Run(events) == AfterPut(AfterAssign(Run(offered), "n", None), "n", "a@b", 0.0, true)
  {
    More(offered, clear);
    More(offered + [clear], put);
    events := offered + [clear] + [put];
  }

  lemma OneRedeemableLink(put: Event) returns (events: seq<Event>)
    requires put == Put("n", "a@b", 0.0, true)
    ensures Monotone(events, 0.0) && OneOut(Run(events))
  {
    FirstOffer();
    More([], put);
    RequestRuns([put], "n", "h", true, 0.0);
    assert [] + [put] == [put];
    events := Requested([put], "n", "h", true, 0.0);
    RunIsSound(events);
  }

  ghost predicate OneOut(s: State) {
    && Sound(s) && Redeemable(s, "h", "n", 0.0) && Names(s, "n", "h") && "n" !in s.phases && s.minted.Keys == {"h"}
    && !AtCap(s.rows, "a@b", CLAIM, 0.0)
  }

  lemma FirstOffer()
    ensures var s := Offer(AfterPut(Empty, "n", "a@b", 0.0, true), "n", "h", true);
            Sound(s) ==> OneOut(s)
  {
    assert Outstanding(map[], "a@b", CLAIM, 0.0) == {};
    OfferDelivers(Empty, "n", "a@b", 0.0, "h");
    var rows := Issue(map[], "a@b", CLAIM, Some("n"), 0.0, "h");
    FewerThan(Outstanding(rows, "a@b", CLAIM, 0.0), {"h"});
  }
}
