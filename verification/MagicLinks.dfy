/** The emailed-link table of backend/core/auth.py: links issued, peeked at, redeemed and
    invalidated, each call one transaction. */
module MagicLinks {
  import opened TemplateLines
  import opened Wrappers

  /** SHA-256 of a token, the table's primary key. */
  type Handle = string

  const MAGIC_LINK_EXPIRY_S := 900.0
  const MAX_OUTSTANDING := 5

  datatype Link = Link(
    email: string, intent: string, node: Option<string>,
    createdAt: real, expiresAt: real, usedAt: Option<real>)

  type Table = map<Handle, Link>

  datatype Redeemed = Redeemed(email: string, intent: string, node: Option<string>)

  predicate Live(link: Link, now: real) {
    link.usedAt.None? && link.expiresAt >= now
  }

  // ── the transactions, on values ───────────────────────────────────────────

  function Swept(rows: Table, email: string, now: real): Table {
    map h | h in rows && !(rows[h].email == email && rows[h].expiresAt < now) :: rows[h]
  }

  function Outstanding(rows: Table, email: string, intent: string, now: real): set<Handle> {
    set h | h in rows && rows[h].email == email && rows[h].intent == intent && Live(rows[h], now)
  }

  predicate AtCap(rows: Table, email: string, intent: string, now: real) {
    |Outstanding(rows, email, intent, now)| >= MAX_OUTSTANDING
  }

  function Issue(rows: Table, email: string, intent: string, node: Option<string>, now: real, handle: Handle): Table {
    var swept := Swept(rows, email, now);
    if AtCap(swept, email, intent, now) then swept
    else swept[handle := Link(email, intent, node, now, now + MAGIC_LINK_EXPIRY_S, None)]
  }

  predicate Redeems(rows: Table, handle: Handle, intent: string, now: real) {
    handle in rows && rows[handle].intent == intent && Live(rows[handle], now)
  }

  /** The unspent links of one address, intent and node. */
  predicate Sibling(link: Link, of: Link) {
    link.email == of.email && link.intent == of.intent && link.node == of.node && link.usedAt.None?
  }

  function Redeem(rows: Table, handle: Handle, intent: string, now: real): Table {
    if !Redeems(rows, handle, intent, now) then rows
    else
      var spent := rows[handle := rows[handle].(usedAt := Some(now))];
      map h | h in spent && !Sibling(spent[h], rows[handle]) :: spent[h]
  }

  function Answer(rows: Table, handle: Handle, intent: string, now: real): Option<Redeemed> {
    if Redeems(rows, handle, intent, now) then Some(Redeemed(rows[handle].email, intent, rows[handle].node)) else None
  }

  // ── the table ─────────────────────────────────────────────────────────────

  class LinkTable {
    const hash: string -> Handle
    const normalise: string -> string
    var rows: Table

    constructor (hash: string -> Handle, normalise: string -> string)
      ensures rows == map[] && this.hash == hash && this.normalise == normalise
    {
      this.hash, this.normalise, rows := hash, normalise, map[];
    }

    /** The token to mail, or None at the cap. The token is a fresh random one. */
    method CreateMagicLink(email: string, intent: string, node: Option<string>, now: real, token: string)
        returns (issued: Option<string>)
      requires hash(token) !in rows
      modifies this
      ensures rows == Issue(old(rows), normalise(email), intent, node, now, hash(token))
      ensures issued == if AtCap(old(rows), normalise(email), intent, now) then None else Some(token)
    {
      var address := normalise(email);
      SweepKeepsOutstanding(rows, address, address, intent, now, now);
      rows := Swept(rows, address, now);
      if |Outstanding(rows, address, intent, now)| >= MAX_OUTSTANDING { return None; }
      rows := rows[hash(token) := Link(address, intent, node, now, now + MAGIC_LINK_EXPIRY_S, None)];
      issued := Some(token);
    }

    method RedeemMagicLink(token: string, intent: string, now: real) returns (redeemed: Option<Redeemed>)
      modifies this
      ensures Blank(token) ==> redeemed.None? && rows == old(rows)
      ensures !Blank(token) ==>
                && rows == Redeem(old(rows), hash(token), intent, now)
                && redeemed == Answer(old(rows), hash(token), intent, now)
    {
      if Blank(token) { return None; }
      var h := hash(token);
      if h !in rows || rows[h].intent != intent || rows[h].usedAt.Some? || rows[h].expiresAt < now { return None; }
      var link := rows[h];
      rows := rows[h := link.(usedAt := Some(now))];
      rows := map k | k in rows && !(rows[k].email == link.email && rows[k].intent == intent
                                     && rows[k].node == link.node && rows[k].usedAt.None?) :: rows[k];
      redeemed := Some(Redeemed(link.email, intent, link.node));
    }

    method PeekMagicLink(token: string, intent: string, now: real) returns (seen: Option<Redeemed>)
      ensures seen == if Blank(token) then None else Answer(rows, hash(token), intent, now)
    {
      if Blank(token) { return None; }
      var h := hash(token);
      if h in rows && rows[h].intent == intent && rows[h].usedAt.None? && rows[h].expiresAt >= now {
        return Some(Redeemed(rows[h].email, intent, rows[h].node));
      }
      seen := None;
    }

    method InvalidateMagicLink(handle: Handle)
      modifies this
      ensures rows == old(rows) - {handle}
    {
      rows := rows - {handle};
    }

    /** Peeking says exactly what redeeming at the same moment would. */
    method PeekThenRedeem(token: string, intent: string, now: real)
        returns (seen: Option<Redeemed>, redeemed: Option<Redeemed>, again: Option<Redeemed>)
      modifies this
      ensures seen == redeemed && again.None?
    {
      seen := PeekMagicLink(token, intent, now);
      redeemed := RedeemMagicLink(token, intent, now);
      again := PeekMagicLink(token, intent, now);
    }
  }

  // ── one transaction ───────────────────────────────────────────────────────

  lemma SweepKeepsOutstanding(rows: Table, swept: string, email: string, intent: string, now: real, later: real)
    requires later >= now
    ensures Outstanding(Swept(rows, swept, now), email, intent, later) == Outstanding(rows, email, intent, later)
  {
  }

  /** A redemption spends its own link, leaves no other unspent link of the same address,
      intent and node, and touches nothing else; a refused one touches nothing. */
  lemma RedeemIsExact(rows: Table, handle: Handle, intent: string, now: real, other: Handle)
    requires other != handle
    ensures var after := Redeem(rows, handle, intent, now);
            if Redeems(rows, handle, intent, now) then
              && handle in after && after[handle] == rows[handle].(usedAt := Some(now))
              && (other in after <==> other in rows && !Sibling(rows[other], rows[handle]))
              && (other in after ==> after[other] == rows[other])
            else after == rows
  {
  }

  /** A link is issued exactly when its address has fewer than five of that intent unspent and in
      date; nothing else happens but that the address's expired rows go. */
  lemma IssuedExactlyBelowFive(rows: Table, email: string, intent: string, node: Option<string>, now: real, handle: Handle)
    requires handle !in rows
    ensures var after := Issue(rows, email, intent, node, now, handle);
            var live := set h | h in rows && rows[h].email == email && rows[h].intent == intent
                                && rows[h].usedAt.None? && rows[h].expiresAt >= now;
            && (handle in after <==> |live| < 5)
            && forall h :: h != handle ==>
                 && (h in after <==> h in rows && (rows[h].email == email ==> rows[h].expiresAt >= now))
                 && (h in after ==> after[h] == rows[h])
  {
    SweepKeepsOutstanding(rows, email, email, intent, now, now);
    assert Outstanding(rows, email, intent, now)
        == set h | h in rows && rows[h].email == email && rows[h].intent == intent
                   && rows[h].usedAt.None? && rows[h].expiresAt >= now;
  }

  /** An issued link gives back what it was issued for, under its own intent, for fifteen minutes,
      and once. */
  lemma IssuedLinkRedeems(
      rows: Table, email: string, intent: string, node: Option<string>, now: real, handle: Handle,
      purpose: string, later: real)
    requires handle !in rows && handle in Issue(rows, email, intent, node, now, handle)
    ensures var after := Issue(rows, email, intent, node, now, handle);
            && Answer(after, handle, purpose, later)
               == (if purpose == intent && later <= now + 900.0 then Some(Redeemed(email, intent, node)) else None)
            && (Answer(after, handle, purpose, later).Some? ==>
                  forall again, t :: Answer(Redeem(after, handle, purpose, later), handle, again, t).None?)
  {
  }

  lemma FewerThan(small: set<Handle>, large: set<Handle>)
    requires small <= large
    ensures |small| <= |large|
  {
    assert large == small + (large - small);
  }

  // ── runs ──────────────────────────────────────────────────────────────────

  datatype Event =
    | Create(email: string, intent: string, node: Option<string>, now: real, handle: Handle)
    | Spend(handle: Handle, intent: string, now: real)
    | Invalidate(handle: Handle)

  datatype Use = Use(handle: Handle, intent: string, now: real)

  /** The table, every link ever issued, and every redemption so far. */
  datatype State = State(rows: Table, issued: Table, spent: seq<Use>)

  const Empty := State(map[], map[], [])

  /** A token is never minted twice. */
  function Step(st: State, e: Event): State {
    match e
    case Create(email, intent, node, now, handle) =>
      if handle in st.issued then st
      else
        var rows := Issue(st.rows, email, intent, node, now, handle);
        State(rows, if handle in rows then st.issued[handle := rows[handle]] else st.issued, st.spent)
    case Spend(handle, intent, now) =>
      State(Redeem(st.rows, handle, intent, now), st.issued,
            if Redeems(st.rows, handle, intent, now) then st.spent + [Use(handle, intent, now)] else st.spent)
    case Invalidate(handle) => State(st.rows - {handle}, st.issued, st.spent)
  }

  function Run(events: seq<Event>): State {
    if events == [] then Empty else Step(Run(events[..|events| - 1]), events[|events| - 1])
  }

  ghost predicate Inv(st: State) {
    && (forall h :: h in st.rows ==> h in st.issued && st.rows[h].(usedAt := None) == st.issued[h])
    && (forall h :: h in st.issued ==> st.issued[h].usedAt.None?
                                       && st.issued[h].expiresAt == st.issued[h].createdAt + MAGIC_LINK_EXPIRY_S)
    && (forall i :: 0 <= i < |st.spent| ==> Proper(st, st.spent[i]))
    && (forall i, j :: 0 <= i < j < |st.spent| ==> st.spent[i].handle != st.spent[j].handle)
  }

  /** A redemption under the link's own intent, in its lifetime, that spent it for good. */
  predicate Proper(st: State, use: Use) {
    && use.handle in st.issued
    && use.intent == st.issued[use.handle].intent
    && use.now <= st.issued[use.handle].createdAt + MAGIC_LINK_EXPIRY_S
    && (use.handle in st.rows ==> st.rows[use.handle].usedAt.Some?)
  }

  lemma StepKeepsInv(st: State, e: Event)
    requires Inv(st)
    ensures Inv(Step(st, e))
  {
    var r := Step(st, e);
    forall i | 0 <= i < |st.spent| ensures Proper(r, st.spent[i]) { assert Proper(st, st.spent[i]); }
    if e.Spend? && Redeems(st.rows, e.handle, e.intent, e.now) {
      forall i | 0 <= i < |st.spent| ensures st.spent[i].handle != e.handle { assert Proper(st, st.spent[i]); }
    }
  }

  /** In every run each link is redeemed at most once, only under its own intent, and no
      later than 15 minutes after it was issued. */
  lemma {:induction false} RedeemedOncePerLink(events: seq<Event>)
    ensures var st := Run(events);
            && Inv(st)
            && (forall i :: 0 <= i < |st.spent| ==> Proper(st, st.spent[i]))
            && (forall i, j :: 0 <= i < j < |st.spent| ==> st.spent[i].handle != st.spent[j].handle)
  {
    if events != [] {
      RedeemedOncePerLink(events[..|events| - 1]);
      StepKeepsInv(Run(events[..|events| - 1]), events[|events| - 1]);
    }
  }

  /** The i-th event issued this link: it was new, and fewer than five were out. */
  predicate IssuedBy(events: seq<Event>, i: nat, h: Handle) {
    && i < |events| && events[i].Create? && events[i].handle == h && h !in Run(events[..i]).issued
    && |Outstanding(Run(events[..i]).rows, events[i].email, events[i].intent, events[i].now)| < 5
  }

  /** What takes a link out of circulation: its own invalidation, a redemption of it or of another
      of the same address, intent and node, or a sweep once it has expired. */
  predicate Retires(st: State, e: Event, h: Handle)
    requires h in st.issued
  {
    var link := st.issued[h];
    match e
    case Create(email, _, _, now, handle) => handle !in st.issued && email == link.email && now > link.expiresAt
    case Invalidate(handle) => handle == h
    case Spend(handle, intent, now) =>
      && Redeems(st.rows, handle, intent, now)
      && st.rows[handle].email == link.email && intent == link.intent && st.rows[handle].node == link.node
  }

  /** The link was issued by the i-th event and nothing has taken it out of circulation since. */
  ghost predicate Circulates(events: seq<Event>, i: nat, h: Handle) {
    && IssuedBy(events, i, h)
    && forall j :: i < j < |events| ==> h in Run(events[..j]).issued && !Retires(Run(events[..j]), events[j], h)
  }

  lemma StepKeepsOrRetires(st: State, e: Event, h: Handle)
    requires Inv(st) && h in st.issued
    ensures var r := Step(st, e);
            && h in r.issued && r.issued[h] == st.issued[h]
            && (IsUnspent(r.rows, h) <==> IsUnspent(st.rows, h) && !Retires(st, e, h))
  {
  }

  predicate IsUnspent(rows: Table, h: Handle) {
    h in rows && rows[h].usedAt.None?
  }

  lemma CreateIssues(st: State, e: Event, h: Handle)
    requires Inv(st) && h !in st.issued
    ensures var r := Step(st, e);
            if e.Create? && e.handle == h && |Outstanding(st.rows, e.email, e.intent, e.now)| < 5 then
              && IsUnspent(r.rows, h) && h in r.issued
              && r.issued[h] == Link(e.email, e.intent, e.node, e.now, e.now + 900.0, None)
            else !IsUnspent(r.rows, h)
  {
    if e.Create? { SweepKeepsOutstanding(st.rows, e.email, e.email, e.intent, e.now, e.now); }
  }

  lemma {:induction false} UnspentCirculates(events: seq<Event>, h: Handle) returns (i: nat)
    requires IsUnspent(Run(events).rows, h)
    ensures Circulates(events, i, h)
    decreases |events|
  {
    var before, e := events[..|events| - 1], events[|events| - 1];
    RedeemedOncePerLink(before);
    if h in Run(before).issued {
      StepKeepsOrRetires(Run(before), e, h);
      i := UnspentCirculates(before, h);
      Prefixes(events, i);
      forall j | i < j < |events| ensures h in Run(events[..j]).issued && !Retires(Run(events[..j]), events[j], h) {
        if j < |before| { assert events[..j] == before[..j] && events[j] == before[j]; }
      }
    } else {
      i := |events| - 1;
      CreateIssues(Run(before), e, h);
    }
  }

  lemma Prefixes(events: seq<Event>, i: nat)
    requires i < |events| - 1
    ensures var before := events[..|events| - 1];
            before[..i] == events[..i] && before[..i + 1] == events[..i + 1] && before[i] == events[i]
  {
  }

  lemma {:induction false} CirculatingIsUnspent(events: seq<Event>, h: Handle, i: nat)
    requires Circulates(events, i, h)
    ensures IsUnspent(Run(events).rows, h) && h in Run(events).issued
    ensures var e := events[i]; Run(events).issued[h] == Link(e.email, e.intent, e.node, e.now, e.now + 900.0, None)
    decreases |events|
  {
    var last := |events| - 1;
    RedeemedOncePerLink(events[..last]);
    if i < last {
      Prefixes(events, i);
      forall j | i < j < last ensures events[..j] == events[..last][..j] && events[j] == events[..last][j] { }
      CirculatingIsUnspent(events[..last], h, i);
      StepKeepsOrRetires(Run(events[..last]), events[last], h);
    } else {
      CreateIssues(Run(events[..last]), events[last], h);
    }
  }

  /** After any run a link redeems, at any moment, exactly when it was issued under that intent at
      most fifteen minutes before and has been in circulation ever since; and what it gives is the
      address and node it was issued for. */
  lemma RedeemsExactlyInCirculation(events: seq<Event>, h: Handle, intent: string, now: real)
    ensures Redeems(Run(events).rows, h, intent, now)
        <==> exists i: nat :: Circulates(events, i, h) && events[i].intent == intent && now <= events[i].now + 900.0
    ensures forall i: nat :: Circulates(events, i, h) && events[i].intent == intent && now <= events[i].now + 900.0 ==>
              Answer(Run(events).rows, h, intent, now) == Some(Redeemed(events[i].email, intent, events[i].node))
  {
    RedeemedOncePerLink(events);
    forall i: nat | Circulates(events, i, h)
      ensures Redeems(Run(events).rows, h, intent, now) <==> events[i].intent == intent && now <= events[i].now + 900.0
      ensures events[i].intent == intent && now <= events[i].now + 900.0 ==>
                Answer(Run(events).rows, h, intent, now) == Some(Redeemed(events[i].email, intent, events[i].node))
    {
      CirculatingIsUnspent(events, h, i);
    }
    if Redeems(Run(events).rows, h, intent, now) {
      var i := UnspentCirculates(events, h);
    }
  }

  /** The i-th event redeemed this link. */
  predicate RedeemedBy(events: seq<Event>, i: nat, h: Handle) {
    && i < |events| && events[i].Spend? && events[i].handle == h
    && Redeems(Run(events[..i]).rows, h, events[i].intent, events[i].now)
  }

  lemma {:induction false} RedemptionEndsIt(events: seq<Event>, i: nat, j: nat, h: Handle)
    requires RedeemedBy(events, i, h) && i < j <= |events|
    ensures h in Run(events[..j]).issued && !IsUnspent(Run(events[..j]).rows, h)
    decreases j
  {
    var before := events[..j - 1];
    assert events[..j][..j - 1] == before;
    RedeemedOncePerLink(before);
    if i < j - 1 { RedemptionEndsIt(events, i, j - 1, h); }
    StepKeepsOrRetires(Run(before), events[j - 1], h);
  }

  /** Of all the events of a run at most one redeems a given link. */
  lemma NoLinkRedeemsTwice(events: seq<Event>, i: nat, j: nat, h: Handle)
    requires RedeemedBy(events, i, h) && RedeemedBy(events, j, h)
    ensures i == j
  {
    if i < j { RedemptionEndsIt(events, i, j, h); }
    if j < i { RedemptionEndsIt(events, j, i, h); }
  }

  /** The unspent links an address holds of one intent, expired or not. */
  function Unspent(rows: Table, email: string, intent: string): set<Handle> {
    set h | h in rows && rows[h].email == email && rows[h].intent == intent && rows[h].usedAt.None?
  }

  /** Sweeping first makes the cap cover every row left, so no clock can defeat it. */
  lemma IssueKeepsCap(rows: Table, e: Event, email: string, intent: string)
    requires e.Create? && |Unspent(rows, email, intent)| <= MAX_OUTSTANDING
    ensures |Unspent(Issue(rows, e.email, e.intent, e.node, e.now, e.handle), email, intent)| <= MAX_OUTSTANDING
  {
    var swept := Swept(rows, e.email, e.now);
    var after := Issue(rows, e.email, e.intent, e.node, e.now, e.handle);
    FewerThan(Unspent(swept, email, intent), Unspent(rows, email, intent));
    if after == swept {
    } else if email == e.email && intent == e.intent {
      assert Unspent(swept, email, intent) == Outstanding(swept, email, intent, e.now);
      FewerThan(Unspent(after, email, intent), Unspent(swept, email, intent) + {e.handle});
    } else {
      FewerThan(Unspent(after, email, intent), Unspent(swept, email, intent));
    }
  }

  /** In every run an address never holds more than five live links of one intent, whatever
      moment liveness is judged at and however the clock jumped in between. */
  lemma {:induction false} AtMostFiveLive(events: seq<Event>, email: string, intent: string, now: real)
    ensures |Outstanding(Run(events).rows, email, intent, now)| <= MAX_OUTSTANDING
  {
    AtMostFiveUnspent(events, email, intent);
    FewerThan(Outstanding(Run(events).rows, email, intent, now), Unspent(Run(events).rows, email, intent));
  }

  lemma {:induction false} AtMostFiveUnspent(events: seq<Event>, email: string, intent: string)
    ensures |Unspent(Run(events).rows, email, intent)| <= MAX_OUTSTANDING
  {
    if events != [] {
      var before, e := events[..|events| - 1], events[|events| - 1];
      var st := Run(before);
      AtMostFiveUnspent(before, email, intent);
      match e
      case Create(_, _, _, _, handle) =>
        if handle !in st.issued { IssueKeepsCap(st.rows, e, email, intent); }
      case Spend(handle, purpose, at) =>
        FewerThan(Unspent(Redeem(st.rows, handle, purpose, at), email, intent), Unspent(st.rows, email, intent));
      case Invalidate(handle) =>
        FewerThan(Unspent(st.rows - {handle}, email, intent), Unspent(st.rows, email, intent));
    }
  }
}
