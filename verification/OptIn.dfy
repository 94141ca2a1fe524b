// The mailing list's double opt-in: what over any run of signups, sends, confirmations and
// unsubscriptions makes an address confirmed, and how often a send can be claimed.
module OptIn {
  import opened Prelude

  type Email = string

  // Token hashes are told apart exactly as the tokens are.
  type Token = nat

  datatype Status = Pending | Confirmed | Unsubscribed

  datatype Row = Row(status: Status, confirm: Option<Token>, expires: Option<int>, unsubscribe: Option<Token>)

  // Minutes.
  const CONFIRM_TTL: int := 48 * 60
  const RESEND_COOLDOWN: int := 10

  // What happened, in order.
  datatype Event =
    | SendClaimed(email: Email, at: int)
    | TokensIssued(email: Email, confirm: Token, unsubscribe: Token, at: int)
    | Opted(email: Email, token: Token, at: int)
    | Left(email: Email, at: int)

  type Log = seq<Event>

  // The confirm token issued last, unless the address left or confirmed since.
  function LiveToken(log: Log, e: Email): Option<Token> {
    if log == [] then None
    else
      var last := log[|log| - 1];
      var before := LiveToken(log[..|log| - 1], e);
      if last.email != e then before
      else
        match last
        case SendClaimed(_, _) => before
        case TokensIssued(_, confirm, _, _) => Some(confirm)
        case Opted(_, _, _) => None
        case Left(_, _) => None
  }

  // When a send was last claimed, unless the address left since.
  function LastClaim(log: Log, e: Email): Option<int> {
    if log == [] then None
    else
      var last := log[|log| - 1];
      var before := LastClaim(log[..|log| - 1], e);
      if last.email != e then before
      else
        match last
        case SendClaimed(_, at) => Some(at)
        case TokensIssued(_, _, _, _) => before
        case Opted(_, _, _) => before
        case Left(_, _) => None
  }

  // Did the address last confirm, rather than leave?
  predicate IsOpted(log: Log, e: Email) {
    log != [] &&
    var last := log[|log| - 1];
    if last.email == e && last.Opted? then true
    else if last.email == e && last.Left? then false
    else IsOpted(log[..|log| - 1], e)
  }

  predicate Confirms(log: Log, k: nat, e: Email, t: Token) {
    k < |log| && log[k].Opted? && log[k].email == e && log[k].token == t
  }

  // Every confirmation used the live token, every claim came after the cooldown.
  ghost predicate LogSound(log: Log) {
    forall k :: 0 <= k < |log| ==> EventSound(log[..k], log[k])
  }

  ghost predicate EventSound(before: Log, e: Event) {
    match e
    case SendClaimed(email, at) => LastClaim(before, email).Some? ==>
      at > LastClaim(before, email).value + RESEND_COOLDOWN
    case TokensIssued(email, confirm, unsubscribe, at) => !Issued(before, confirm)
    case Opted(email, token, at) => LiveToken(before, email) == Some(token)
    case Left(_, _) => true
  }

  ghost predicate Issued(log: Log, t: Token) {
    exists k :: 0 <= k < |log| && log[k].TokensIssued? && log[k].confirm == t
  }

  // ---- what a sound log means --------------------------------------------------------------

  predicate Quiet(log: Log, j: nat, k: nat, e: Email) {
    k <= |log| && forall i :: j < i < k ==>
      !(log[i].email == e && (log[i].TokensIssued? || log[i].Left? || log[i].Opted?))
  }

  lemma {:induction false} LiveTokenIssued(log: Log, e: Email) returns (j: nat)
    requires LiveToken(log, e).Some?
    ensures j < |log| && log[j].TokensIssued? && log[j].email == e && log[j].confirm == LiveToken(log, e).value
    ensures Quiet(log, j, |log|, e)
  {
    var n := |log| - 1;
    if log[n].email == e && log[n].TokensIssued? {
      j := n;
    } else {
      j := LiveTokenIssued(log[..n], e);
      forall i | j < i < |log|
        ensures !(log[i].email == e && (log[i].TokensIssued? || log[i].Left? || log[i].Opted?))
      {
        assert i < n ==> log[..n][i] == log[i];
      }
    }
  }

  // An address is confirmed only by the pair issued to it last, with no departure since.
  lemma ConfirmedByLatestPair(log: Log, k: nat, e: Email, t: Token) returns (j: nat)
    requires LogSound(log) && Confirms(log, k, e, t)
    ensures j < k && log[j].TokensIssued? && log[j].email == e && log[j].confirm == t && Quiet(log, j, k, e)
  {
    assert EventSound(log[..k], log[k]);
    j := LiveTokenIssued(log[..k], e);
    forall i | j < i < k
      ensures !(log[i].email == e && (log[i].TokensIssued? || log[i].Left? || log[i].Opted?))
    {
      assert log[..k][i] == log[i];
    }
  }

  // A token is issued once.
  lemma IssuedOnce(log: Log, i: nat, j: nat)
    requires LogSound(log) && i < |log| && j < |log| && log[i].TokensIssued? && log[j].TokensIssued?
    ensures log[i].confirm == log[j].confirm <==> i == j
  {
  }

  // Each token confirms at most once, whatever address it is for.
  lemma ConfirmsOnce(log: Log, k: nat, l: nat, e: Email, f: Email, t: Token)
    requires LogSound(log) && Confirms(log, k, e, t) && Confirms(log, l, f, t)
    ensures k == l && e == f
  {
    var i := ConfirmedByLatestPair(log, k, e, t);
    var j := ConfirmedByLatestPair(log, l, f, t);
    IssuedOnce(log, i, j);
    assert k < l ==> Quiet(log, j, l, f);
    assert l < k ==> Quiet(log, i, k, e);
  }

  predicate StaysBetween(log: Log, j: nat, k: nat, e: Email) {
    k <= |log| && forall i :: j < i < k ==> !(log[i].Left? && log[i].email == e)
  }

  // After a claim and no departure, the last claim is that one or a later one more than a
  // cooldown on.
  lemma {:induction false} LastClaimSince(log: Log, j: nat, e: Email)
    requires LogSound(log) && j < |log| && log[j].SendClaimed? && log[j].email == e && StaysBetween(log, j, |log|, e)
    ensures LastClaim(log, e).Some? && LastClaim(log, e).value >= log[j].at
  {
    var n := |log| - 1;
    if j < n {
      assert EventSound(log[..n], log[n]);
      forall k | 0 <= k < n
        ensures EventSound(log[..n][..k], log[..n][k])
      {
        assert log[..n][..k] == log[..k] && EventSound(log[..k], log[k]);
      }
      forall i | j < i < n
        ensures !(log[..n][i].Left? && log[..n][i].email == e)
      {
        assert log[..n][i] == log[i];
      }
      LastClaimSince(log[..n], j, e);
    }
  }

  // Two claims for one address with no departure between are more than ten minutes apart.
  lemma ClaimsAreApart(log: Log, j: nat, k: nat, e: Email)
    requires LogSound(log) && j < k < |log| && StaysBetween(log, j, k, e)
    requires log[j].SendClaimed? && log[k].SendClaimed? && log[j].email == e && log[k].email == e
    ensures log[k].at > log[j].at + 10
  {
    assert EventSound(log[..k], log[k]);
    forall i | 0 <= i < k
      ensures EventSound(log[..k][..i], log[..k][i])
    {
      assert log[..k][..i] == log[..i] && EventSound(log[..i], log[i]);
    }
    forall i | j < i < k
      ensures !(log[..k][i].Left? && log[..k][i].email == e)
    {
      assert log[..k][i] == log[i];
    }
    assert log[..k][j] == log[j];
    LastClaimSince(log[..k], j, e);
  }

  // ---- the table -------------------------------------------------------------------------------

  function RowOf(rows: map<Email, Row>, e: Email): Row {
    if e in rows then rows[e] else Row(Unsubscribed, None, None, None)
  }

  // A row says what the log says: its confirm token is the live one, and while it is
  // pending its expiry covers the cooldown of the last claim.
  ghost predicate RowFits(log: Log, e: Email, r: Row) {
    && r.confirm == LiveToken(log, e)
    && (r.status == Confirmed <==> IsOpted(log, e))
    && (r.confirm.Some? ==> r.status == Pending || r.status == Unsubscribed)
    && (r.status == Pending && LastClaim(log, e).Some? ==>
      r.expires.Some? && r.expires.value >= LastClaim(log, e).value + CONFIRM_TTL)
    && (r.status == Unsubscribed ==> LastClaim(log, e).None? && r.confirm.None?)
  }

  lemma LogSnoc(log: Log, e: Event)
    requires LogSound(log) && EventSound(log, e)
    ensures LogSound(log + [e])
  {
    var all := log + [e];
    forall k | 0 <= k < |all|
      ensures EventSound(all[..k], all[k])
    {
      assert all[..k] == log[..k];
      assert k == |log| ==> log[..k] == log;
      assert k < |log| ==> EventSound(log[..k], log[k]);
    }
  }

  lemma {:induction false} SnocMeaning(log: Log, e: Event, who: Email)
    ensures (log + [e])[..|log|] == log && (log + [e])[|log|] == e
    ensures e.email != who ==>
      LiveToken(log + [e], who) == LiveToken(log, who) && LastClaim(log + [e], who) == LastClaim(log, who)
    ensures e.email != who ==> IsOpted(log + [e], who) == IsOpted(log, who)
    ensures e.email == who ==>
      IsOpted(log + [e], who) == if e.Opted? then true else if e.Left? then false else IsOpted(log, who)
    ensures e.email == who ==>
      LiveToken(log + [e], who) == if e.SendClaimed? then LiveToken(log, who)
        else if e.TokensIssued? then Some(e.confirm) else None
    ensures e.email == who ==>
      LastClaim(log + [e], who) == if e.SendClaimed? then Some(e.at) else if e.Left? then None else LastClaim(log, who)
  {
  }

  // No two rows hold the same token of a kind.
  ghost predicate TokensDistinct(rows: map<Email, Row>) {
    forall d, e :: d in rows && e in rows && d != e ==>
      && (rows[d].confirm.Some? ==> rows[d].confirm != rows[e].confirm)
      && (rows[d].unsubscribe.Some? ==> rows[d].unsubscribe != rows[e].unsubscribe)
  }

  // ---- statements ----------------------------------------------------------------------------------

  function Upserted(r: Row): Row {
    if r.status == Confirmed then r else r.(status := Pending)
  }

  predicate MayClaim(r: Row, now: int) {
    r.status == Pending && (r.expires.None? || r.expires.value < now + CONFIRM_TTL - RESEND_COOLDOWN)
  }

  predicate MayConfirm(r: Row, token: Token, now: int) {
    r.confirm == Some(token) && r.status == Pending && (r.expires.None? || r.expires.value > now)
  }

  predicate MayLeave(r: Row, token: Token) {
    r.unsubscribe == Some(token) && r.status != Unsubscribed
  }

  ghost predicate AllFit(log: Log, rows: map<Email, Row>) {
    forall e :: RowFits(log, e, RowOf(rows, e))
  }

  ghost predicate ClaimsBefore(log: Log, clock: int) {
    forall k :: 0 <= k < |log| && log[k].SendClaimed? ==> log[k].at <= clock
  }

  ghost predicate Kept(rows: map<Email, Row>, log: Log, clock: int, used: set<Token>) {
    && LogSound(log) && TokensDistinct(rows) && AllFit(log, rows) && ClaimsBefore(log, clock)
    && (forall e :: e in rows ==> TokensUsed(rows[e], used))
    && (forall k :: 0 <= k < |log| && log[k].TokensIssued? ==> log[k].confirm in used)
  }

  ghost predicate TokensUsed(r: Row, used: set<Token>) {
    (r.confirm.Some? ==> r.confirm.value in used) && (r.unsubscribe.Some? ==> r.unsubscribe.value in used)
  }

  lemma {:induction false} LastClaimBefore(log: Log, e: Email, clock: int)
    requires ClaimsBefore(log, clock) && LastClaim(log, e).Some?
    ensures LastClaim(log, e).value <= clock
  {
    var n := |log| - 1;
    if !(log[n].email == e && log[n].SendClaimed?) {
      LastClaimBefore(log[..n], e, clock);
    }
  }

  // One event and one changed row: everything else still fits.
  lemma AfterEvent(rows: map<Email, Row>, log: Log, clock: int, used: set<Token>, r: Row, event: Event, now: int,
                   more: set<Token>)
    requires Kept(rows, log, clock, used) && clock <= now && used <= more
    requires EventSound(log, event) && RowFits(log + [event], event.email, r)
    requires event.SendClaimed? ==> event.at <= now
    requires event.TokensIssued? ==> event.confirm in more
    requires TokensUsed(r, more) && TokensDistinct(rows[event.email := r])
    ensures Kept(rows[event.email := r], log + [event], now, more)
  {
    var all := log + [event];
    LogSnoc(log, event);
    var after := rows[event.email := r];
    forall e
      ensures RowFits(all, e, RowOf(after, e))
    {
      if e != event.email {
        SnocMeaning(log, event, e);
        assert RowFits(log, e, RowOf(rows, e));
      }
    }
    forall k | 0 <= k < |all| && all[k].TokensIssued?
      ensures all[k].confirm in more
    {
      assert k < |log| ==> all[k] == log[k];
    }
  }

  // One changed row and nothing logged.
  lemma AfterNothing(rows: map<Email, Row>, log: Log, clock: int, used: set<Token>, e: Email, r: Row, now: int)
    requires Kept(rows, log, clock, used) && clock <= now
    requires RowFits(log, e, r) && TokensUsed(r, used) && TokensDistinct(rows[e := r])
    ensures Kept(rows[e := r], log, now, used)
  {
    var after := rows[e := r];
    forall d
      ensures RowFits(log, d, RowOf(after, d))
    {
      assert d != e ==> RowFits(log, d, RowOf(rows, d));
    }
  }

  // A row that keeps or drops its tokens stays apart from the others.
  lemma FewerTokens(rows: map<Email, Row>, e: Email, r: Row)
    requires TokensDistinct(rows)
    requires r.confirm.None? || (e in rows && r.confirm == rows[e].confirm)
    requires r.unsubscribe.None? || (e in rows && r.unsubscribe == rows[e].unsubscribe)
    ensures TokensDistinct(rows[e := r])
  {
  }

  lemma UpsertedFits(rows: map<Email, Row>, log: Log, e: Email, now: int)
    requires AllFit(log, rows)
    ensures RowFits(log, e, Upserted(RowOf(rows, e)))
  {
  }

  // A claim is only made later than the cooldown after the claim before it.
  lemma ClaimSound(log: Log, e: Email, r: Row, now: int)
    requires RowFits(log, e, r) && MayClaim(r, now)
    ensures EventSound(log, SendClaimed(e, now))
    ensures RowFits(log + [SendClaimed(e, now)], e, r.(expires := Some(now + CONFIRM_TTL)))
  {
  }

  lemma IssueSound(log: Log, e: Email, r: Row, confirm: Token, unsubscribe: Token, now: int, clock: int)
    requires RowFits(log, e, r) && r.status == Pending && ClaimsBefore(log, clock) && clock <= now
    requires forall k :: 0 <= k < |log| && log[k].TokensIssued? ==> log[k].confirm != confirm
    ensures EventSound(log, TokensIssued(e, confirm, unsubscribe, now))
    ensures RowFits(log + [TokensIssued(e, confirm, unsubscribe, now)], e,
      Row(Pending, Some(confirm), Some(now + CONFIRM_TTL), Some(unsubscribe)))
  {
    SnocMeaning(log, TokensIssued(e, confirm, unsubscribe, now), e);
    if LastClaim(log, e).Some? {
      LastClaimBefore(log, e, clock);
    }
  }

  lemma ConfirmSound(log: Log, e: Email, r: Row, token: Token, now: int)
    requires RowFits(log, e, r) && r.confirm == Some(token)
    ensures EventSound(log, Opted(e, token, now))
    ensures RowFits(log + [Opted(e, token, now)], e, r.(status := Confirmed, confirm := None, expires := None))
  {
  }

  lemma LeaveSound(log: Log, e: Email, r: Row, now: int)
    ensures EventSound(log, Left(e, now))
    ensures RowFits(log + [Left(e, now)], e, r.(status := Unsubscribed, confirm := None, expires := None))
  {
  }

  class SubscriberTable {
    var rows: map<Email, Row>
    ghost var log: Log
    ghost var clock: int
    ghost var used: set<Token>

    ghost predicate Valid()
      reads this
    {
      Kept(rows, log, clock, used)
    }

    constructor ()
      ensures Valid() && rows == map[] && log == [] && used == {}
    {
      rows, log, clock, used := map[], [], 0, {};
    }

    // Records a signup; claims the sending of a confirmation unless one was claimed within
    // the cooldown or the address is confirmed.
    method Subscribe(email: Email, now: int) returns (send: bool)
      requires Valid() && now >= clock
      modifies this
      ensures Valid() && clock == now && used == old(used)
      ensures email in rows && rows == old(rows)[email := rows[email]]
      ensures email in old(rows) && old(rows)[email].status == Confirmed ==> !send && rows == old(rows)
      ensures email in old(rows) && old(rows)[email].status != Confirmed ==>
        && (send <==> old(rows)[email].expires.None? || old(rows)[email].expires.value < now + 48 * 60 - 10)
        && rows[email] == old(rows)[email].(
             status := Pending, expires := if send then Some(now + 48 * 60) else old(rows)[email].expires)
      ensures email !in old(rows) ==> send && rows[email] == Row(Pending, None, Some(now + 48 * 60), None)
      ensures log == if send then old(log) + [SendClaimed(email, now)] else old(log)
    {
      var r := Upserted(RowOf(rows, email));
      UpsertedFits(rows, log, email, now);
      FewerTokens(rows, email, r);
      send := MayClaim(r, now);
      if send {
        ClaimSound(log, email, r, now);
        r := r.(expires := Some(now + CONFIRM_TTL));
        FewerTokens(rows, email, r);
        AfterEvent(rows, log, clock, used, r, SendClaimed(email, now), now, used);
        log := log + [SendClaimed(email, now)];
      } else {
        AfterNothing(rows, log, clock, used, email, r, now);
      }
      rows, clock := rows[email := r], now;
    }

    // The send job stores a fresh pair for an address still pending; it finds nothing to
    // send to one that confirmed or left meanwhile.
    method IssueTokens(email: Email, confirm: Token, unsubscribe: Token, now: int) returns (issued: bool)
      requires Valid() && now >= clock && confirm !in used && unsubscribe !in used && confirm != unsubscribe
      modifies this
      ensures Valid() && clock == now && used == old(used) + {confirm, unsubscribe}
      ensures issued <==> email in old(rows) && old(rows)[email].status == Pending
      ensures rows == if issued
        then old(rows)[email := Row(Pending, Some(confirm), Some(now + 48 * 60), Some(unsubscribe))] else old(rows)
      ensures log == if issued then old(log) + [TokensIssued(email, confirm, unsubscribe, now)] else old(log)
    {
      issued := email in rows && rows[email].status == Pending;
      ghost var more := used + {confirm, unsubscribe};
      if issued {
        var r := Row(Pending, Some(confirm), Some(now + CONFIRM_TTL), Some(unsubscribe));
        assert RowFits(log, email, RowOf(rows, email));
        IssueSound(log, email, rows[email], confirm, unsubscribe, now, clock);
        assert forall e :: e in rows ==> TokensUsed(rows[e], used);
        AfterEvent(rows, log, clock, used, r, TokensIssued(email, confirm, unsubscribe, now), now, more);
        log := log + [TokensIssued(email, confirm, unsubscribe, now)];
        rows := rows[email := r];
      }
      clock, used := now, more;
    }

    // Confirms the pending address whose unexpired token this is, and clears the token.
    method Confirm(token: Token, now: int) returns (who: Option<Email>)
      requires Valid() && now >= clock
      modifies this
      ensures Valid() && clock == now && used == old(used)
      ensures who.None? <==> forall e :: e in old(rows) ==>
        !(old(rows)[e].confirm == Some(token) && old(rows)[e].status == Pending &&
          (old(rows)[e].expires.None? || old(rows)[e].expires.value > now))
      ensures who.None? ==> rows == old(rows) && log == old(log)
      ensures who.Some? ==>
        && who.value in old(rows) && old(rows)[who.value].confirm == Some(token)
        && old(rows)[who.value].status == Pending
        && (old(rows)[who.value].expires.None? || old(rows)[who.value].expires.value > now)
      ensures who.Some? ==>
        && rows == old(rows)[who.value := old(rows)[who.value].(status := Confirmed, confirm := None, expires := None)]
        && log == old(log) + [Opted(who.value, token, now)]
    {
      if e :| e in rows && MayConfirm(rows[e], token, now) {
        var r := rows[e].(status := Confirmed, confirm := None, expires := None);
        assert RowFits(log, e, RowOf(rows, e));
        ConfirmSound(log, e, rows[e], token, now);
        FewerTokens(rows, e, r);
        AfterEvent(rows, log, clock, used, r, Opted(e, token, now), now, used);
        log := log + [Opted(e, token, now)];
        rows := rows[e := r];
        who := Some(e);
      } else {
        who := None;
      }
      clock := now;
    }

    // Removes the address whose token this is, whether or not it was confirmed.
    method Unsubscribe(token: Token, now: int) returns (who: Option<Email>)
      requires Valid() && now >= clock
      modifies this
      ensures Valid() && clock == now && used == old(used)
      ensures who.None? <==> forall e :: e in old(rows) ==>
        !(old(rows)[e].unsubscribe == Some(token) && old(rows)[e].status in {Pending, Confirmed})
      ensures who.None? ==> rows == old(rows) && log == old(log)
      ensures who.Some? ==>
        && who.value in old(rows) && old(rows)[who.value].unsubscribe == Some(token)
        && old(rows)[who.value].status in {Pending, Confirmed}
      ensures who.Some? ==>
        && rows == old(rows)[who.value :=
          old(rows)[who.value].(status := Unsubscribed, confirm := None, expires := None)]
        && log == old(log) + [Left(who.value, now)]
    {
      if e :| e in rows && MayLeave(rows[e], token) {
        var r := rows[e].(status := Unsubscribed, confirm := None, expires := None);
        LeaveSound(log, e, rows[e], now);
        FewerTokens(rows, e, r);
        AfterEvent(rows, log, clock, used, r, Left(e, now), now, used);
        log := log + [Left(e, now)];
        rows := rows[e := r];
        who := Some(e);
      } else {
        who := None;
      }
      clock := now;
    }
  }

  lemma {:induction false} OptedSince(log: Log, e: Email) returns (k: nat, t: Token)
    requires IsOpted(log, e)
    ensures Confirms(log, k, e, t) && StaysBetween(log, k, |log|, e)
  {
    var n := |log| - 1;
    if log[n].email == e && log[n].Opted? {
      k, t := n, log[n].token;
    } else {
      k, t := OptedSince(log[..n], e);
      forall i | k < i < |log|
        ensures !(log[i].Left? && log[i].email == e)
      {
        assert i < n ==> log[..n][i] == log[i];
      }
    }
  }

  // In every reachable state a confirmed address has confirmed since it last left, with the
  // token of the pair issued to it last before that, which has confirmed nothing else.
  lemma DoubleOptIn(s: SubscriberTable, e: Email) returns (j: nat, k: nat, t: Token)
    requires s.Valid() && e in s.rows && s.rows[e].status == Confirmed
    ensures Confirms(s.log, k, e, t) && StaysBetween(s.log, k, |s.log|, e)
    ensures j < k && s.log[j].TokensIssued? && s.log[j].email == e && s.log[j].confirm == t && Quiet(s.log, j, k, e)
    ensures forall l, f :: Confirms(s.log, l, f, t) ==> l == k && f == e
  {
    assert RowFits(s.log, e, RowOf(s.rows, e));
    k, t := OptedSince(s.log, e);
    j := ConfirmedByLatestPair(s.log, k, e, t);
    forall l, f | Confirms(s.log, l, f, t)
      ensures l == k && f == e
    {
      ConfirmsOnce(s.log, k, l, e, f, t);
    }
  }
}
