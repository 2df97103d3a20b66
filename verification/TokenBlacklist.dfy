/**
 Refresh-token rotation, logout and the access check of the authentication service (auth.service.ts,
 auth.middleware.ts) over the blacklist keys they share in Redis.  Times are milliseconds; `exp` is in seconds.
 */
module TokenBlacklist {
  import opened Prelude

  /**
   What verification finds in a token: whether its signature is good under the access and under the refresh secret,
   whether its type claim is 'refresh', and its expiry claim.  `text` is the token itself, the blacklist key.
   */
  datatype Token = Token(text: string, accessSigned: bool, refreshSigned: bool, refreshType: bool, exp: Option<int>)

  /** Blacklist key to the instant at which Redis drops it. */
  type Blacklist = map<string, int>

  const FALLBACK_TTL := 86400

  function Seconds(ms: int): int {
    ms / 1000
  }

  /** Section 4.1.4 of RFC 7519: not accepted on or after the expiration time. */
  predicate Unexpired(t: Token, now: int) {
    t.exp.Some? ==> Seconds(now) < t.exp.value
  }

  predicate AccessVerifies(t: Token, now: int) {
    t.accessSigned && Unexpired(t, now)
  }

  predicate RefreshVerifies(t: Token, now: int) {
    t.refreshSigned && Unexpired(t, now)
  }

  /** `eager`: is a key already gone at its expiry instant, or only after it? */
  predicate KeyLives(expiresAt: int, now: int, eager: bool) {
    now < expiresAt || (!eager && now == expiresAt)
  }

  predicate Listed(list: Blacklist, text: string, now: int, eager: bool) {
    text in list && KeyLives(list[text], now, eager)
  }

  function SetEx(list: Blacklist, text: string, ttl: int, now: int): Blacklist {
    list[text := now + 1000 * ttl]
  }

  /** `payload.exp ?? 0` */
  function Expiry(t: Token): int {
    if t.exp.Some? then t.exp.value else 0
  }

  // ---- Calls -----------------------------------------------------------------------------------

  /**
   The instants of a call's own steps: refreshToken verifies, then reads the blacklist, computes the remaining life
   and writes the key; use reads the blacklist before it verifies; logout verifies, computes and writes.
   */
  datatype Call =
    | Refresh(token: Token, verifyAt: int, readAt: int, ttlAt: int, writeAt: int, userExists: bool)
    | Logout(token: Token, verifyAt: int, ttlAt: int, writeAt: int)
    | Use(token: Token, readAt: int, verifyAt: int)

  predicate Ordered(c: Call) {
    match c
    case Refresh(_, verifyAt, readAt, ttlAt, writeAt, _) => verifyAt <= readAt <= ttlAt <= writeAt
    case Logout(_, verifyAt, ttlAt, writeAt) => verifyAt <= ttlAt <= writeAt
    case Use(_, readAt, verifyAt) => readAt <= verifyAt
  }

  function StartOf(c: Call): int {
    if c.Use? then c.readAt else c.verifyAt
  }

  function EndOf(c: Call): int {
    if c.Use? then c.verifyAt else c.writeAt
  }

  /** Gets past the blacklist: the token is spent, whether or not the user still exists. */
  predicate RefreshPasses(list: Blacklist, c: Call, eager: bool)
    requires c.Refresh?
  {
    RefreshVerifies(c.token, c.verifyAt) && c.token.refreshType && !Listed(list, c.token.text, c.readAt, eager)
  }

  predicate Accepted(list: Blacklist, c: Call, eager: bool) {
    match c
    case Refresh(_, _, _, _, _, userExists) => RefreshPasses(list, c, eager) && userExists
    case Logout(_, _, _, _) => true
    case Use(token, readAt, verifyAt) => !Listed(list, token.text, readAt, eager) && AccessVerifies(token, verifyAt)
  }

  function Remaining(t: Token, now: int): int {
    Expiry(t) - Seconds(now)
  }

  /** The lifetime, in seconds, for which a call that gets to its write blacklists its token. */
  function Lifetime(c: Call): int {
    match c
    case Refresh(token, _, _, ttlAt, _, _) => Remaining(token, ttlAt)
    case Logout(token, verifyAt, ttlAt, _) =>
      if !AccessVerifies(token, verifyAt) then FALLBACK_TTL
      else if token.exp.Some? && token.exp.value != 0 then Remaining(token, ttlAt)
      else 0
    case Use(_, _, _) => 0
  }

  /** A call's write; there is none for a lifetime of zero or less. */
  function Written(list: Blacklist, c: Call): Blacklist {
    if Lifetime(c) > 0 then SetEx(list, c.token.text, Lifetime(c), EndOf(c)) else list
  }

  function Next(list: Blacklist, c: Call, eager: bool): Blacklist {
    if c.Refresh? && !RefreshPasses(list, c, eager) then list else Written(list, c)
  }

  function Run(cs: seq<Call>, eager: bool): Blacklist {
    if |cs| == 0 then map[] else Next(Run(cs[..|cs| - 1], eager), cs[|cs| - 1], eager)
  }

  /** Calls one after the other. */
  ghost predicate Sequential(cs: seq<Call>) {
    && (forall i :: 0 <= i < |cs| ==> Ordered(cs[i]))
    && (forall i, j :: 0 <= i < j < |cs| ==> EndOf(cs[i]) <= StartOf(cs[j]))
  }

  /** A text carries one signature and one set of claims. */
  ghost predicate SameText(cs: seq<Call>) {
    forall i, j :: 0 <= i < j < |cs| && cs[i].token.text == cs[j].token.text ==> cs[i].token == cs[j].token
  }

  // ---- The services ------------------------------------------------------------------------------

  datatype RefreshError = InvalidOrExpired | NotARefreshToken | AlreadyUsed | UserNotFound

  class AuthService {
    const eager: bool
    var blacklist: Blacklist

    constructor (eager: bool)
      ensures blacklist == map[] && this.eager == eager
    {
      this.eager, blacklist := eager, map[];
    }

    method RefreshToken(token: Token, verifyAt: int, readAt: int, ttlAt: int, writeAt: int, userExists: bool)
      returns (r: Result<(), RefreshError>)
      modifies this`blacklist
      ensures var call := Refresh(token, verifyAt, readAt, ttlAt, writeAt, userExists);
              && blacklist == Next(old(blacklist), call, eager)
              && (r.Ok? <==> Accepted(old(blacklist), call, eager))
              && (r == Err(UserNotFound) <==> RefreshPasses(old(blacklist), call, eager) && !userExists)
      ensures r == if !token.refreshSigned || (token.exp.Some? && verifyAt / 1000 >= token.exp.value) then Err(InvalidOrExpired)
                   else if !token.refreshType then Err(NotARefreshToken)
                   else if token.text in old(blacklist)
                           && (readAt < old(blacklist)[token.text] || (!eager && readAt == old(blacklist)[token.text]))
                   then Err(AlreadyUsed)
                   else if !userExists then Err(UserNotFound)
                   else Ok(())
      ensures var life := (if token.exp.Some? then token.exp.value else 0) - ttlAt / 1000;
              blacklist == if (r.Ok? || r == Err(UserNotFound)) && life > 0 then old(blacklist)[token.text := writeAt + 1000 * life]
                           else old(blacklist)
    {
      if !RefreshVerifies(token, verifyAt) {
        return Err(InvalidOrExpired);
      }
      if !token.refreshType {
        return Err(NotARefreshToken);
      }
      if Listed(blacklist, token.text, readAt, eager) {
        return Err(AlreadyUsed);
      }
      var ttl := Expiry(token) - Seconds(ttlAt);
      if ttl > 0 {
        blacklist := SetEx(blacklist, token.text, ttl, writeAt);
      }
      if !userExists {
        return Err(UserNotFound);
      }
      r := Ok(());
    }

    method LogOut(token: Token, verifyAt: int, ttlAt: int, writeAt: int)
      modifies this`blacklist
      ensures blacklist == Next(old(blacklist), Logout(token, verifyAt, ttlAt, writeAt), eager)
      ensures var verifies := token.accessSigned && (token.exp.Some? ==> verifyAt / 1000 < token.exp.value);
              blacklist == if !verifies then old(blacklist)[token.text := writeAt + 86400000]
                           else if token.exp.Some? && token.exp.value != 0 && ttlAt / 1000 < token.exp.value
                           then old(blacklist)[token.text := writeAt + 1000 * (token.exp.value - ttlAt / 1000)]
                           else old(blacklist)
    {
      if !AccessVerifies(token, verifyAt) {
        blacklist := SetEx(blacklist, token.text, FALLBACK_TTL, writeAt);
        return;
      }
      if token.exp.Some? && token.exp.value != 0 {
        var ttl := token.exp.value - Seconds(ttlAt);
        if ttl > 0 {
          blacklist := SetEx(blacklist, token.text, ttl, writeAt);
        }
      }
    }

    method UseToken(token: Token, readAt: int, verifyAt: int) returns (ok: bool)
      ensures ok == Accepted(blacklist, Use(token, readAt, verifyAt), eager)
      ensures ok <==>
                && !(token.text in blacklist && (readAt < blacklist[token.text] || (!eager && readAt == blacklist[token.text])))
                && token.accessSigned && (token.exp.Some? ==> verifyAt / 1000 < token.exp.value)
    {
      if Listed(blacklist, token.text, readAt, eager) {
        return false;
      }
      ok := AccessVerifies(token, verifyAt);
    }
  }

  // ---- The lifetime arithmetic --------------------------------------------------------------------

  /** A key written for the rest of a token's life outlives the token, by less than the write's delay plus a second. */
  lemma OutlivesToken(exp: int, ttlAt: int, writeAt: int)
    requires ttlAt <= writeAt
    ensures var gone := writeAt + 1000 * (exp - Seconds(ttlAt));
            1000 * exp <= gone < 1000 * exp + (writeAt - ttlAt) + 1000
  {
  }

  // ---- Spent tokens ---------------------------------------------------------------------------------

  /** From `now` on the token is expired, or blacklisted until it is. */
  ghost predicate Spent(list: Blacklist, t: Token, now: int) {
    t.exp.Some? && (now >= 1000 * t.exp.value || (t.text in list && list[t.text] >= 1000 * t.exp.value))
  }

  /** A logout of a token it cannot verify, with more than a day to go, ends the token's blacklisting too early. */
  predicate CutsShort(c: Call, t: Token) {
    && c.Logout? && c.token == t && t.exp.Some? && !AccessVerifies(t, c.verifyAt)
    && c.writeAt + 1000 * FALLBACK_TTL < 1000 * t.exp.value
  }

  // ---- Exactly when a second refresh succeeds ---------------------------------------------------------

  lemma {:induction false} EntryStands(cs: seq<Call>, k: nat, text: string, eager: bool)
    requires k <= |cs|
    requires forall i :: k <= i < |cs| && cs[i].token.text == text ==> cs[i].Use?
    ensures text in Run(cs, eager) <==> text in Run(cs[..k], eager)
    ensures text in Run(cs, eager) ==> Run(cs, eager)[text] == Run(cs[..k], eager)[text]
  {
    if k == |cs| {
      assert cs[..k] == cs;
    } else {
      var rest := cs[..|cs| - 1];
      assert rest[..k] == cs[..k];
      EntryStands(rest, k, text, eager);
    }
  }

  /**
   Of two refreshes with the same token, with no other refresh or logout of it between them, the second gets past the
   blacklist if and only if the token still verifies and the first left no key, or one that is gone when the second
   reads it.  A token without an expiry claim never leaves a key, and can be used again and again.
   */
  lemma SecondRefreshPassesIff(cs: seq<Call>, k: nat, j: nat, eager: bool)
    requires Sequential(cs) && SameText(cs) && k < j < |cs|
    requires cs[k].Refresh? && cs[j].Refresh? && cs[j].token == cs[k].token
    requires RefreshPasses(Run(cs[..k], eager), cs[k], eager)
    requires forall i :: k < i < j && cs[i].token.text == cs[k].token.text ==> cs[i].Use?
    ensures var t := cs[k].token;
            var ttl := Remaining(t, cs[k].ttlAt);
            RefreshPasses(Run(cs[..j], eager), cs[j], eager)
            <==> Unexpired(t, cs[j].verifyAt) && (ttl > 0 ==> !KeyLives(cs[k].writeAt + 1000 * ttl, cs[j].readAt, eager))
  {
    var t := cs[k].token;
    var before := cs[..j];
    assert before[..k + 1] == cs[..k + 1] && cs[..k + 1][..k] == cs[..k];
    EntryStands(before, k + 1, t.text, eager);
    assert EndOf(cs[k]) <= StartOf(cs[j]);
    assert t.text in Run(cs[..k], eager) ==> Run(cs[..k], eager)[t.text] <= cs[k].readAt;
  }

  /** The gap exists: a second refresh that verifies just before the expiry and reads the blacklist just after it succeeds. */
  lemma ExpiryGap(text: string, eager: bool)
    ensures var t := Token(text, false, true, true, Some(1000));
            var cs := [Refresh(t, 0, 0, 0, 0, true), Refresh(t, 999999, 1000001, 1000001, 1000001, true)];
            && Sequential(cs) && SameText(cs)
            && Accepted(Run(cs[..0], eager), cs[0], eager) && Accepted(Run(cs[..1], eager), cs[1], eager)
  {
    var t := Token(text, false, true, true, Some(1000));
    var cs := [Refresh(t, 0, 0, 0, 0, true), Refresh(t, 999999, 1000001, 1000001, 1000001, true)];
    assert cs[..1][..0] == [] && cs[..1][0] == cs[0];
    assert Run(cs[..1], eager) == Next(map[], cs[0], eager);
    assert Run(cs[..1], eager)[text] == 1000000;
  }

  // ---- Two refreshes at once -----------------------------------------------------------------------------

  /** The blacklist that a read at `now` sees while call a, which got past it, writes its key at its own time. */
  function Seen(list: Blacklist, a: Call, now: int, eager: bool): Blacklist {
    if a.Refresh? && a.writeAt <= now then Next(list, a, eager) else list
  }

  /**
   Of two calls with the same token, the first to read the blacklist passing, the other one also passes if and only if
   its token verifies and it reads before the first has written, or finds the first one's key gone or never written.
   */
  lemma OverlappingRefreshPassesIff(list: Blacklist, a: Call, b: Call, eager: bool)
    requires a.Refresh? && b.Refresh? && a.token == b.token && Ordered(a) && Ordered(b)
    requires RefreshPasses(list, a, eager) && a.readAt <= b.readAt
    ensures var ttl := Remaining(a.token, a.ttlAt);
            RefreshPasses(Seen(list, a, b.readAt, eager), b, eager)
            <==> Unexpired(b.token, b.verifyAt)
                 && (b.readAt < a.writeAt || ttl <= 0 || !KeyLives(a.writeAt + 1000 * ttl, b.readAt, eager))
  {
  }

  /** So two refreshes of any good token that both read the blacklist before either has written both succeed. */
  lemma OverlappingRefreshesBothPass(t: Token, now: int, eager: bool)
    requires t.refreshType && RefreshVerifies(t, now)
    ensures var a, b := Refresh(t, now, now, now + 1, now + 3, true), Refresh(t, now, now + 2, now + 2, now + 4, true);
            && Ordered(a) && Ordered(b)
            && Accepted(map[], a, eager) && Accepted(Seen(map[], a, b.readAt, eager), b, eager)
  {
  }

  // ---- Any number of calls at once ------------------------------------------------------------------------

  /** What other calls can notice of call number `call`: it reads the blacklist, and it writes to it. */
  datatype Moment = Read(call: nat) | Write(call: nat)

  /** The blacklist, and the refreshes that have got past it. */
  datatype Shared = Shared(list: Blacklist, passed: set<nat>)

  function At(c: Call, m: Moment): int {
    if m.Write? then EndOf(c) else if c.Logout? then c.verifyAt else c.readAt
  }

  function Happen(s: Shared, c: Call, m: Moment, eager: bool): Shared {
    match m
    case Read(i) => if c.Refresh? && RefreshPasses(s.list, c, eager) then s.(passed := s.passed + {i}) else s
    case Write(i) => if c.Logout? || (c.Refresh? && i in s.passed) then s.(list := Written(s.list, c)) else s
  }

  function Play(cs: seq<Call>, ms: seq<Moment>, eager: bool): Shared {
    if |ms| == 0 then Shared(map[], {})
    else
      var before, m := Play(cs, ms[..|ms| - 1], eager), ms[|ms| - 1];
      if m.call < |cs| then Happen(before, cs[m.call], m, eager) else before
  }

  /** The moments come in the order of their times; how those of different calls mix is free. */
  ghost predicate InOrder(cs: seq<Call>, ms: seq<Moment>) {
    && (forall i :: 0 <= i < |cs| ==> Ordered(cs[i]))
    && (forall i :: 0 <= i < |ms| ==> ms[i].call < |cs|)
    && forall i, j :: 0 <= i < j < |ms| ==> At(cs[ms[i].call], ms[i]) <= At(cs[ms[j].call], ms[j])
  }

  /** The p-th moment is the write of a call that spends its token. */
  ghost predicate Spends(cs: seq<Call>, ms: seq<Moment>, p: nat, eager: bool) {
    && p < |ms| && ms[p].Write? && ms[p].call < |cs| && cs[ms[p].call].token.exp.Some?
    && var c := cs[ms[p].call];
       || (c.Refresh? && ms[p].call in Play(cs, ms[..p], eager).passed)
       || (c.Logout? && AccessVerifies(c.token, c.verifyAt) && c.token.exp.value != 0)
  }

  /** Whatever calls overlap, except a logout that cuts the blacklisting short, a spent token stays spent. */
  lemma {:induction false} SpentStaysSpent(cs: seq<Call>, ms: seq<Moment>, p: nat, q: nat, eager: bool)
    requires InOrder(cs, ms) && SameText(cs) && Spends(cs, ms, p, eager) && p < q <= |ms|
    requires forall i :: p < i < q && ms[i].Write? ==> !CutsShort(cs[ms[i].call], cs[ms[p].call].token)
    ensures Spent(Play(cs, ms[..q], eager).list, cs[ms[p].call].token, At(cs[ms[q - 1].call], ms[q - 1]))
    decreases q
  {
    if q == p + 1 {
      assert ms[..p + 1][..p] == ms[..p];
    } else {
      SpentStaysSpent(cs, ms, p, q - 1, eager);
      assert ms[..q][..q - 1] == ms[..q - 1];
    }
  }

  /**
   Refresh tokens are single-use, however many calls overlap: once a refresh that got past the blacklist has written its
   key, one with the same token that reads later gets past only if it verified before the expiry and read after it - or
   a logout cut the listing short.
   */
  lemma RefreshIsSingleUse(cs: seq<Call>, ms: seq<Moment>, p: nat, q: nat, eager: bool)
    requires InOrder(cs, ms) && SameText(cs) && Spends(cs, ms, p, eager) && p < q < |ms| && ms[q].Read?
    requires cs[ms[q].call].Refresh? && cs[ms[q].call].token == cs[ms[p].call].token
    requires forall i :: p < i < q && ms[i].Write? ==> !CutsShort(cs[ms[i].call], cs[ms[p].call].token)
    ensures var c := cs[ms[q].call];
            RefreshPasses(Play(cs, ms[..q], eager).list, c, eager) ==> c.verifyAt < 1000 * c.token.exp.value <= c.readAt
  {
    SpentStaysSpent(cs, ms, p, q, eager);
  }

  /**
   use reads the blacklist before it verifies, so a logged-out token is rejected for ever, with no such gap, and no later
   logout can cut its listing short.
   */
  lemma LogoutIsPermanent(cs: seq<Call>, ms: seq<Moment>, p: nat, q: nat, eager: bool)
    requires InOrder(cs, ms) && SameText(cs) && Spends(cs, ms, p, eager) && p < q < |ms| && ms[q].Read?
    requires cs[ms[q].call].Use? && cs[ms[q].call].token == cs[ms[p].call].token
    ensures !Accepted(Play(cs, ms[..q], eager).list, cs[ms[q].call], eager)
  {
    var t := cs[ms[p].call].token;
    if t.accessSigned {
      forall i | p < i < q && ms[i].Write? ensures !CutsShort(cs[ms[i].call], t) {
        assert Ordered(cs[ms[i].call]);
      }
      SpentStaysSpent(cs, ms, p, q, eager);
    }
  }

  /** The p-th moment is the write of a logout, or of a refresh that got past the blacklist, of a token with this text. */
  ghost predicate Writes(cs: seq<Call>, ms: seq<Moment>, p: nat, text: string, eager: bool) {
    && p < |ms| && ms[p].Write? && ms[p].call < |cs| && cs[ms[p].call].token.text == text
    && (cs[ms[p].call].Logout? || (cs[ms[p].call].Refresh? && ms[p].call in Play(cs, ms[..p], eager).passed))
  }

  /** However many calls overlap, nothing is listed but what such a call has listed: a token that no call has used is free. */
  lemma {:induction false} ListedWasWritten(cs: seq<Call>, ms: seq<Moment>, text: string, eager: bool)
    requires text in Play(cs, ms, eager).list
    ensures exists p: nat :: Writes(cs, ms, p, text, eager)
  {
    var n := |ms| - 1;
    var before := ms[..n];
    if text in Play(cs, before, eager).list {
      ListedWasWritten(cs, before, text, eager);
      var p: nat :| Writes(cs, before, p, text, eager);
      assert before[..p] == ms[..p] && before[p] == ms[p];
      assert Writes(cs, ms, p, text, eager);
    } else {
      assert Writes(cs, ms, n, text, eager);
    }
  }

  /** And only a refresh that verified, with a refresh token, and found it unlisted at its read, gets past the blacklist. */
  lemma {:induction false} PassedHadRead(cs: seq<Call>, ms: seq<Moment>, i: nat, eager: bool)
    requires i in Play(cs, ms, eager).passed
    ensures exists p: nat :: PassesAt(cs, ms, p, i, eager)
  {
    var n := |ms| - 1;
    var before := ms[..n];
    if i in Play(cs, before, eager).passed {
      PassedHadRead(cs, before, i, eager);
      var p: nat :| PassesAt(cs, before, p, i, eager);
      assert before[..p] == ms[..p] && before[p] == ms[p];
      assert PassesAt(cs, ms, p, i, eager);
    } else {
      assert PassesAt(cs, ms, n, i, eager);
    }
  }

  ghost predicate PassesAt(cs: seq<Call>, ms: seq<Moment>, p: nat, i: nat, eager: bool) {
    && p < |ms| && ms[p] == Read(i) && i < |cs| && cs[i].Refresh?
    && var c, list := cs[i], Play(cs, ms[..p], eager).list;
       && c.token.refreshSigned && c.token.refreshType && (c.token.exp.Some? ==> c.verifyAt / 1000 < c.token.exp.value)
       && !(c.token.text in list && (c.readAt < list[c.token.text] || (!eager && c.readAt == list[c.token.text])))
  }

  // ---- What a logout is worth --------------------------------------------------------------------------

  /**
   Logging out a token that verifies locks it out for ever if and only if it carries an expiry: without one nothing is
   written, and whatever listing it has runs out.
   */
  lemma LogoutPermanentIffExpires(list: Blacklist, t: Token, verifyAt: int, ttlAt: int, writeAt: int, eager: bool)
    requires AccessVerifies(t, verifyAt) && 0 <= verifyAt <= ttlAt <= writeAt
    ensures var after := Next(list, Logout(t, verifyAt, ttlAt, writeAt), eager);
            (forall at :: at >= writeAt ==> !Accepted(after, Use(t, at, at), eager)) <==> t.exp.Some?
  {
    var c := Logout(t, verifyAt, ttlAt, writeAt);
    var after := Next(list, c, eager);
    if t.exp.None? {
      var late := if t.text in list then Max(writeAt, list[t.text] + 1) else writeAt;
      assert after == list && Accepted(after, Use(t, late, late), eager);
    }
  }

  /**
   Logout verifies under the access secret, so it blacklists a refresh token signed with its own secret for one day:
   that is permanent if and only if the token has no more than a day to live (a key that stays for its last instant
   makes it one millisecond more).
   */
  lemma RefreshTokenLogoutPermanentIff(list: Blacklist, t: Token, verifyAt: int, ttlAt: int, writeAt: int, eager: bool)
    requires t.refreshSigned && t.refreshType && !t.accessSigned && t.exp.Some?
    requires verifyAt <= ttlAt <= writeAt
    ensures var after := Next(list, Logout(t, verifyAt, ttlAt, writeAt), eager);
            (forall at :: at >= writeAt ==> !RefreshPasses(after, Refresh(t, at, at, at, at, true), eager))
            <==> 1000 * t.exp.value <= writeAt + 1000 * FALLBACK_TTL + if eager then 0 else 1
  {
    var after := Next(list, Logout(t, verifyAt, ttlAt, writeAt), eager);
    var gone := writeAt + 1000 * FALLBACK_TTL + if eager then 0 else 1;
    assert after[t.text] == writeAt + 1000 * FALLBACK_TTL;
    if gone < 1000 * t.exp.value {
      assert RefreshPasses(after, Refresh(t, gone, gone, gone, gone, true), eager);
    }
  }

  /** Such a logout even shortens the blacklisting of a refresh token already used: a day later it works again. */
  lemma LogoutRevivesSpentToken(text: string, eager: bool)
    ensures var t := Token(text, false, true, true, Some(604800));
            var cs := [Refresh(t, 0, 0, 0, 0, true), Logout(t, 1, 1, 1), Refresh(t, 86400002, 86400002, 86400002, 86400002, true)];
            && Sequential(cs) && SameText(cs)
            && Accepted(Run(cs[..0], eager), cs[0], eager) && Accepted(Run(cs[..2], eager), cs[2], eager)
  {
    var t := Token(text, false, true, true, Some(604800));
    var cs := [Refresh(t, 0, 0, 0, 0, true), Logout(t, 1, 1, 1), Refresh(t, 86400002, 86400002, 86400002, 86400002, true)];
    assert cs[..2][..1] == cs[..1] && cs[..1][..0] == [];
    assert Run(cs[..2], eager) == Next(Run(cs[..1], eager), cs[1], eager);
    assert Run(cs[..2], eager)[text] == 86400001;
  }
}
