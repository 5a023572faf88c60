/** The request handlers of backend/routes/node_claim.py, run to completion over the link
    table and the two claim tables. */
module NodeClaimRoutes {
  import opened MagicLinks
  import opened NodeClaim
  import opened Wrappers

  /** A status code, and the claim's standing unless the limiter refused. */
  datatype Answer = Answer(code: nat, status: Option<Status>)

  /** A link went out: there is a transport, and the node is told one is outstanding. */
  predicate Mails(answer: Answer, sent: bool) {
    sent && answer.status.Some? && answer.status.value.state.Pending?
  }

  /** The outbox once a claim has started: one mail more if the node is told a link is out. */
  function Posted(
      outbox: seq<(string, string)>, status: Status, email: string, token: string, sent: bool): seq<(string, string)>
  {
    if status.state.Pending? && sent then outbox + [(email, token)] else outbox
  }

  /** What a node is told of a claim that starts: pending, unless its address, rid of the link this
      node's row names, still holds five. */
  function Offered(rows: Table, challenges: map<Node, Challenge>, n: Node, email: string, now: real): Status {
    var left := if n in challenges then rows - {challenges[n].handle} else rows;
    Status(if AtCap(left, email, CLAIM, now) then Unclaimed else Pending, Some(email), false)
  }

  class ClaimRoutes {
    const links: LinkTable
    var claims: map<Node, Claim>
    var challenges: map<Node, Challenge>
    var outbox: seq<(string, string)>
    ghost var state: NodeClaim.State

    /** Addresses on file are normalised: whoever writes one has validated it. */
    ghost predicate Valid()
      reads this, links
    {
      Sound(state) && Matches(state) && Normalised(claims, links.normalise)
    }

    ghost predicate Matches(st: NodeClaim.State)
      reads this, links
    {
      st.rows == links.rows && st.claims == claims && st.challenges == challenges
    }

    constructor (links: LinkTable)
      requires links.rows == map[]
      ensures Valid() && state == NodeClaim.Empty && this.links == links && outbox == []
    {
      this.links, claims, challenges, outbox := links, map[], map[], [];
      state := NodeClaim.Empty;
    }

    method SetClaimAddress(n: Node, email: string)
      modifies this`claims
      ensures claims == Nominated(old(claims), n, email)
    {
      if n !in claims {
        claims := claims[n := Claim(None, Some(email), false, false)];
      } else if claims[n].email != Some(email) {
        claims := claims[n := claims[n].(email := Some(email), verified := false, undeliverable := false)];
      }
    }

    method ReadStatus(n: Node, now: real) returns (status: Status)
      ensures status == StatusOf(claims, challenges, n, now)
    {
      if n !in claims { return Status(Unclaimed, None, false); }
      var claim := claims[n];
      if claim.owner.Some? { return Status(Owned, claim.email, false); }
      if claim.undeliverable { return Status(Unclaimed, claim.email, true); }
      if n in challenges && challenges[n].expiresAt > now {
        return Status(Pending, Some(challenges[n].email), false);
      }
      status := Status(Unclaimed, claim.email, false);
    }

    // The commits of a claim, each one step of the state machine.

    /** The old link dies first. */
    method Kill(n: Node)
      requires Valid() && n in state.phases && state.phases[n].Admitted?
      modifies links, this`state
      ensures Valid() && state == AfterDisplace(old(state), n)
    {
      if n in challenges { links.InvalidateMagicLink(challenges[n].handle); }
      DisplaceIsSound(state, n);
      state := AfterDisplace(state, n);
    }

    /** The link store commits the new link on its own, or issues none at the cap. */
    method MintLink(n: Node, email: string, now: real, token: string) returns (issued: bool)
      requires Valid() && n in state.phases && state.phases[n] == Cleared(email, now)
      requires links.normalise(email) == email && links.hash(token) !in state.minted
      modifies links, this`state
      ensures Valid() && state == AfterMint(old(state), n, links.hash(token))
      ensures n in state.phases && state.phases[n] == if issued then Minted(email, now, links.hash(token)) else Capped(email)
      ensures issued == !AtCap(old(links.rows), email, CLAIM, now)
    {
      RowsAreMinted(state);
      MintOutcome(state, n, email, now, links.hash(token));
      MintIsSound(state, n, links.hash(token));
      var minted := links.CreateMagicLink(email, CLAIM, Some(n), now, token);
      state := AfterMint(state, n, links.hash(token));
      issued := minted.Some?;
    }

    /** One transaction: the row that names the new link, or no row, and the address. */
    method Record(n: Node, email: string, now: real, h: Handle, issued: bool)
      requires Valid() && n in state.phases && links.normalise(email) == email
      requires state.phases[n] == if issued then Minted(email, now, h) else Capped(email)
      modifies this`claims, this`challenges, this`state
      ensures Valid() && state == AfterCommit(old(state), n)
      ensures claims == Nominated(old(claims), n, email) && challenges == Recorded(old(challenges), n, email, now, h, issued)
      ensures if issued then n in state.phases && state.phases[n] == Committed(email, h) else n !in state.phases
    {
      CommitOutcome(state, n, email, now, h, issued);
      RequestIsSound(state, Commit(n, now));
      NominatedIsNormalised(claims, links.normalise, n, email);
      state := AfterCommit(state, n);
      if issued {
        challenges := challenges[n := Challenge(email, h, now + MAGIC_LINK_EXPIRY_S)];
      } else {
        challenges := challenges - {n};
      }
      SetClaimAddress(n, email);
    }

    /** Mailed last, if there is a transport; nothing at the cap. */
    method Mail(n: Node, email: string, now: real, token: string, issued: bool, sent: bool, ghost begun: NodeClaim.State)
        returns (status: Status)
      requires Valid() && state == Filed(begun, n, links.hash(token))
      requires if issued then n in state.phases && state.phases[n] == Committed(email, links.hash(token))
               else n !in state.phases
      requires StatusOf(claims, challenges, n, now) == Status(if issued then Pending else Unclaimed, Some(email), false)
      modifies this`outbox, this`state
      ensures Valid() && state == Offer(begun, n, links.hash(token), sent)
      ensures status == StatusOf(claims, challenges, n, now)
      ensures outbox == Posted(old(outbox), status, email, token, sent)
    {
      status := Status(Unclaimed, Some(email), false);
      if issued {
        DeliverIsSound(state, n, sent);
        state := AfterDeliver(state, n, sent);
        if sent { outbox := outbox + [(email, token)]; }
        status := Status(Pending, Some(email), false);
      }
    }

    /** The new link is on record, or the address holds too many. */
    method Challenged(n: Node, email: string, now: real, token: string) returns (issued: bool)
      requires Valid() && n in state.phases && state.phases[n] == Admitted(email, now)
      requires links.normalise(email) == email && links.hash(token) !in state.minted
      requires Nominable(claims, n, email)
      modifies links, this`claims, this`challenges, this`state
      ensures Valid() && state == Filed(old(state), n, links.hash(token))
      ensures StatusOf(claims, challenges, n, now) == Status(if issued then Pending else Unclaimed, Some(email), false)
      ensures if issued then n in state.phases && state.phases[n] == Committed(email, links.hash(token))
              else n !in state.phases
      ensures issued == !AtCap(Displaced(old(links.rows), old(challenges), n), email, CLAIM, now)
    {
      Kill(n);
      issued := MintLink(n, email, now, token);
      Record(n, email, now, links.hash(token), issued);
      Told(old(claims), old(challenges), n, email, now, links.hash(token), issued);
    }

    /** The commits in order, and then the mail. What the node is told is what reading its
        status now would say. */
    method StartClaim(n: Node, email: string, now: real, token: string, sent: bool) returns (status: Status)
      requires Valid() && n in state.phases && state.phases[n] == Admitted(email, now)
      requires links.normalise(email) == email && links.hash(token) !in state.minted
      requires Nominable(claims, n, email)
      modifies this, links
      ensures Valid() && state == Offer(old(state), n, links.hash(token), sent)
      ensures status == StatusOf(claims, challenges, n, now)
      ensures status == Offered(old(links.rows), old(challenges), n, email, now)
      ensures outbox == Posted(old(outbox), status, email, token, sent)
    {
      ghost var begun := state;
      var issued := Challenged(n, email, now, token);
      status := Mail(n, email, now, token, issued, sent, begun);
    }

    /** PUT: nothing is mailed for an address already on file, an owned node, or a refusal. */
    method PutClaim(n: Node, email: string, now: real, admitted: bool, token: string, sent: bool) returns (answer: Answer)
      requires Valid() && n !in state.phases
      requires links.normalise(email) == email && links.hash(token) !in state.minted
      modifies this, links
      ensures Valid() && state == Offer(AfterPut(old(state), n, email, now, admitted), n, links.hash(token), sent)
      ensures var before := StatusOf(old(claims), old(challenges), n, now);
              var told := Some(StatusOf(claims, challenges, n, now));
              answer == if before.state.Owned? && before.email != Some(email) then Answer(409, told)
                        else if before.state.Owned? || before.email == Some(email) || admitted then Answer(200, told)
                        else Answer(429, None)
      ensures var before := StatusOf(old(claims), old(challenges), n, now);
              if !before.state.Owned? && before.email != Some(email) && admitted then
                && answer.status == Some(Offered(old(links.rows), old(challenges), n, email, now))
                && outbox == if Mails(answer, sent) then old(outbox) + [(email, token)] else old(outbox)
              else claims == old(claims) && challenges == old(challenges) && outbox == old(outbox)
      ensures outbox != old(outbox) ==>
                n !in old(claims) || (old(claims)[n].owner.None? && old(claims)[n].email != Some(email))
    {
      var status := ReadStatus(n, now);
      StatusTellsTheAddress(state, n, now);
      PutKeepsTables(state, n, email, now, admitted);
      RequestIsSound(state, Put(n, email, now, admitted));
      state := AfterPut(state, n, email, now, admitted);
      IdleOffer(state, n, links.hash(token), sent);
      if status.state.Owned? { return Answer(if status.email == Some(email) then 200 else 409, Some(status)); }
      if status.email == Some(email) { return Answer(200, Some(status)); }
      if !admitted { return Answer(429, None); }
      status := StartClaim(n, email, now, token, sent);
      answer := Answer(200, Some(status));
    }

    /** POST resend: the address on file gets a fresh link, unless there is none, it bounced or
        the node is owned. */
    method ResendClaim(n: Node, now: real, admitted: bool, token: string, sent: bool) returns (answer: Answer)
      requires Valid() && n !in state.phases && links.hash(token) !in state.minted
      modifies this, links
      ensures Valid() && state == Offer(AfterResend(old(state), n, now, admitted), n, links.hash(token), sent)
      ensures var before := StatusOf(old(claims), old(challenges), n, now);
              var told := Some(StatusOf(claims, challenges, n, now));
              answer == if before.state.Owned? then Answer(409, told)
                        else if before.email.None? || before.undeliverable || admitted then Answer(200, told)
                        else Answer(429, None)
      ensures var before := StatusOf(old(claims), old(challenges), n, now);
              if !before.state.Owned? && before.email.Some? && !before.undeliverable && admitted then
                && n in old(claims) && old(claims)[n].email == before.email
                && answer.status == Some(Offered(old(links.rows), old(challenges), n, before.email.value, now))
                && outbox == if Mails(answer, sent) then old(outbox) + [(before.email.value, token)] else old(outbox)
              else claims == old(claims) && challenges == old(challenges) && outbox == old(outbox)
    {
      var status := ReadStatus(n, now);
      StatusTellsTheAddress(state, n, now);
      ResendKeepsTables(state, n, now, admitted);
      RequestIsSound(state, Resend(n, now, admitted));
      state := AfterResend(state, n, now, admitted);
      IdleOffer(state, n, links.hash(token), sent);
      if status.state.Owned? { return Answer(409, Some(status)); }
      if status.email.None? || status.undeliverable { return Answer(200, Some(status)); }
      if !admitted { return Answer(429, None); }
      status := StartClaim(n, status.email.value, now, token, sent);
      answer := Answer(200, Some(status));
    }
  }

  ghost predicate Normalised(claims: map<Node, Claim>, normalise: string -> string) {
    forall n :: n in claims && claims[n].email.Some? ==> normalise(claims[n].email.value) == claims[n].email.value
  }

  lemma NominatedIsNormalised(claims: map<Node, Claim>, normalise: string -> string, n: Node, email: string)
    requires Normalised(claims, normalise) && normalise(email) == email
    ensures Normalised(Nominated(claims, n, email), normalise)
  {
  }

  /** A node without an owner, and an address that has not bounced. */
  predicate Nominable(claims: map<Node, Claim>, n: Node, email: string) {
    n in claims ==> claims[n].owner.None? && (claims[n].undeliverable ==> claims[n].email != Some(email))
  }

  /** What a request answers is what reading the node's status right after it would. */
  lemma Told(
      claims: map<Node, Claim>, challenges: map<Node, Challenge>, n: Node, email: string, now: real, h: Handle, issued: bool)
    requires Nominable(claims, n, email)
    ensures StatusOf(Nominated(claims, n, email), Recorded(challenges, n, email, now, h, issued), n, now)
         == Status(if issued then Pending else Unclaimed, Some(email), false)
  {
  }

  /** A request that does not begin is a no-op through to its end. */
  lemma IdleOffer(st: NodeClaim.State, n: Node, h: Handle, sent: bool)
    ensures n !in st.phases ==> Offer(st, n, h, sent) == st
  {
  }

  predicate SameTables(st: NodeClaim.State, s: NodeClaim.State) {
    s.rows == st.rows && s.claims == st.claims && s.challenges == st.challenges && s.minted == st.minted
  }

  lemma PutKeepsTables(st: NodeClaim.State, n: Node, email: string, now: real, admitted: bool)
    ensures SameTables(st, AfterPut(st, n, email, now, admitted))
  {
  }

  lemma ResendKeepsTables(st: NodeClaim.State, n: Node, now: real, admitted: bool)
    ensures SameTables(st, AfterResend(st, n, now, admitted))
  {
  }
}
