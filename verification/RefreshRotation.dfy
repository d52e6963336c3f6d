/**
 The local account's session and its rotating refresh token. Creating a session is one serializable transaction; a refresh reads and
 validates, mints a token pair, and later swaps the stored hash if it is still the presented one, so refreshes and session
 creations interleave. Hashing is injective and identifiers are fresh.
 */
module RefreshRotation {
  import opened Wrappers

  type UserId = nat
  type SessionId = nat

  const LIFETIME_MS := 30 * 24 * 60 * 60 * 1_000

  datatype RefreshToken = RefreshToken(sub: UserId, sid: SessionId, jti: nat)

  datatype AccessToken = AccessToken(sub: UserId, sid: SessionId)

  /** The digest of a token. */
  datatype Hash = Hash(token: RefreshToken)

  datatype Session = Session(id: SessionId, hash: Hash, expiresAt: int)

  /** The single account row; the three session columns are set together. */
  datatype Account = Account(userId: Option<UserId>, session: Option<Session>)

  // ---------------------------------------------------------------- the operations on the row

  /** Whom a new session belongs to, given the two oldest users when the account has none yet. */
  function SessionUser(a: Account, existing: seq<UserId>, newUser: UserId): Option<UserId> {
    if a.userId.Some? then a.userId
    else if |existing| > 1 then None
    else if |existing| == 1 then Some(existing[0])
    else Some(newUser)
  }

  /** A user that the session creates is active. */
  function ActiveAfter(a: Account, active: set<UserId>, existing: seq<UserId>, newUser: UserId): set<UserId> {
    if a.userId.None? && existing == [] then active + {newUser} else active
  }

  function StartSession(a: Account, user: UserId, sid: SessionId, jti: nat, now: int): Account {
    Account(Some(user), Some(Session(sid, Hash(RefreshToken(user, sid, jti)), now + LIFETIME_MS)))
  }

  predicate Validates(a: Account, active: set<UserId>, t: RefreshToken, now: int) {
    && a.userId == Some(t.sub)
    && a.session.Some?
    && a.session.value.id == t.sid
    && t.sub in active
    && a.session.value.hash == Hash(t)
    && a.session.value.expiresAt > now
  }

  /** The swap compares the user and the hash only, not the session. */
  predicate CanSwap(a: Account, t: RefreshToken) {
    a.userId == Some(t.sub) && a.session.Some? && a.session.value.hash == Hash(t)
  }

  function SwapHash(a: Account, t: RefreshToken, minted: RefreshToken): Account {
    if CanSwap(a, t) then a.(session := Some(a.session.value.(hash := Hash(minted)))) else a
  }

  /** The guard of every request. */
  predicate Admits(a: Account, active: set<UserId>, t: AccessToken) {
    a.userId == Some(t.sub) && a.session.Some? && a.session.value.id == t.sid && t.sub in active
  }

  // ---------------------------------------------------------------- all requests together

  datatype Refresh =
    | Validated(presented: RefreshToken, minted: RefreshToken, expiresAt: int)
    | Succeeded(presented: RefreshToken, minted: RefreshToken, expiresAt: int)
    | Refused

  /**
   `redeemed`, `expiryOf`, `createdAt` and `issuedAt` are history: which refresh redeemed a token, the expiry a session was created with,
   and when sessions were created and tokens issued.
   */
  datatype World = World(
    account: Account,
    active: set<UserId>,
    clock: int,
    issued: set<RefreshToken>,
    nextJti: nat,
    nextSid: nat,
    refreshes: map<nat, Refresh>,
    redeemed: map<RefreshToken, nat>,
    expiryOf: map<SessionId, int>,
    createdAt: map<SessionId, int>,
    issuedAt: map<RefreshToken, int>)

  datatype Step =
    | CreateSession(existing: seq<UserId>, newUser: UserId)
    | Present(id: nat, token: RefreshToken)
    | Swap(id: nat)
    | Advance(ms: nat)
    | SetActive(users: set<UserId>)

  function Initial(clock: int, active: set<UserId>): World {
    World(Account(None, None), active, clock, {}, 0, 0, map[], map[], map[], map[], map[])
  }

  /** A step that does not apply changes nothing. */
  function Next(w: World, step: Step): World {
    match step
    case CreateSession(existing, newUser) =>
      var user, active := SessionUser(w.account, existing, newUser), ActiveAfter(w.account, w.active, existing, newUser);
      if user.None? || user.value !in active then w
      else
        w.(active := active,
           account := StartSession(w.account, user.value, w.nextSid, w.nextJti, w.clock),
           issued := w.issued + {RefreshToken(user.value, w.nextSid, w.nextJti)},
           nextJti := w.nextJti + 1,
           nextSid := w.nextSid + 1,
           expiryOf := w.expiryOf[w.nextSid := w.clock + LIFETIME_MS],
           createdAt := w.createdAt[w.nextSid := w.clock],
           issuedAt := w.issuedAt[RefreshToken(user.value, w.nextSid, w.nextJti) := w.clock])
    case Present(id, token) =>
      if id in w.refreshes || token !in w.issued then w
      else if !Validates(w.account, w.active, token, w.clock) then w.(refreshes := w.refreshes[id := Refused])
      else
        var session := w.account.session.value;
        var minted := RefreshToken(token.sub, session.id, w.nextJti);
        w.(issued := w.issued + {minted},
           issuedAt := w.issuedAt[minted := w.clock],
           nextJti := w.nextJti + 1,
           refreshes := w.refreshes[id := Validated(token, minted, session.expiresAt)])
    case Swap(id) =>
      if id !in w.refreshes || !w.refreshes[id].Validated? then w
      else
        var r := w.refreshes[id];
        if CanSwap(w.account, r.presented) then
          w.(account := SwapHash(w.account, r.presented, r.minted),
             refreshes := w.refreshes[id := Succeeded(r.presented, r.minted, r.expiresAt)],
             redeemed := w.redeemed[r.presented := id])
        else w.(refreshes := w.refreshes[id := Refused])
    case Advance(ms) => w.(clock := w.clock + ms)
    case SetActive(users) => w.(active := users)
  }

  function After(w: World, steps: seq<Step>): World
    decreases |steps|
  {
    if steps == [] then w else After(Next(w, steps[0]), steps[1..])
  }

  // ---------------------------------------------------------------- the invariant

  /** The stored hash belongs to a token of the stored session and user, and that token has not been redeemed. */
  predicate StoredTokenFits(w: World) {
    w.account.session.Some? ==>
      var s := w.account.session.value;
      && w.account.userId == Some(s.hash.token.sub)
      && s.id == s.hash.token.sid
      && s.hash.token in w.issued
      && s.hash.token !in w.redeemed
      && s.id in w.expiryOf && w.expiryOf[s.id] == s.expiresAt
  }

  predicate FreshIds(w: World) {
    && (forall t <- w.issued :: t.jti < w.nextJti && t.sid < w.nextSid)
    && (forall t <- w.issued, u <- w.issued :: t.jti == u.jti ==> t == u)
    && (forall s <- w.expiryOf :: s < w.nextSid)
    && (forall t <- w.redeemed :: t in w.issued)
  }

  /** A minted token that is not stored yet: neither the stored token nor a redeemed one. */
  predicate RefreshFits(w: World, id: nat)
    requires id in w.refreshes
  {
    match w.refreshes[id]
    case Validated(presented, minted, expiresAt) =>
      && presented in w.issued && minted in w.issued
      && minted.sid == presented.sid && minted.sub == presented.sub
      && minted != presented && minted !in w.redeemed
      && (w.account.session.Some? ==> w.account.session.value.hash != Hash(minted))
      && presented.sid in w.expiryOf && w.expiryOf[presented.sid] == expiresAt
    case Succeeded(presented, minted, expiresAt) =>
      && presented in w.redeemed && w.redeemed[presented] == id
      && minted.sid == presented.sid
      && presented.sid in w.expiryOf && w.expiryOf[presented.sid] == expiresAt
    case Refused => true
  }

  predicate MintedDiffer(w: World) {
    forall i <- w.refreshes, j <- w.refreshes ::
      i != j && w.refreshes[i].Validated? && w.refreshes[j].Validated? ==> w.refreshes[i].minted != w.refreshes[j].minted
  }

  /** A session ends thirty days after its creation, and its tokens were all issued in between. */
  predicate TimesFit(w: World) {
    && w.createdAt.Keys == w.expiryOf.Keys && w.issuedAt.Keys == w.issued
    && (forall s <- w.createdAt :: w.createdAt[s] <= w.clock && w.expiryOf[s] == w.createdAt[s] + 2_592_000_000)
    && (forall t <- w.issuedAt ::
          && t.sid in w.createdAt && w.issuedAt[t] <= w.clock
          && w.createdAt[t.sid] <= w.issuedAt[t] < w.createdAt[t.sid] + 2_592_000_000)
  }

  predicate TokensFit(w: World) {
    StoredTokenFits(w) && FreshIds(w) && (forall id <- w.refreshes :: RefreshFits(w, id)) && MintedDiffer(w)
  }

  predicate Inv(w: World) { TokensFit(w) && TimesFit(w) }

  lemma StepKeepsTimes(w: World, step: Step)
    requires Inv(w)
    ensures TimesFit(Next(w, step))
  {
    hide RefreshFits, MintedDiffer;
  }

  lemma InitialInv(clock: int, active: set<UserId>)
    ensures Inv(Initial(clock, active))
  {
  }

  lemma StepKeepsTokens(w: World, step: Step)
    requires TokensFit(w)
    ensures TokensFit(Next(w, step))
  {
    match step
    case CreateSession(existing, newUser) => CreateKeepsTokens(w, existing, newUser);
    case Present(id, token) => PresentKeepsTokens(w, id, token);
    case Swap(id) => SwapKeepsTokens(w, id);
    case _ =>
      forall id | id in w.refreshes ensures RefreshFits(Next(w, step), id) {
        assert RefreshFits(w, id);
      }
  }

  lemma CreateKeepsTokens(w: World, existing: seq<UserId>, newUser: UserId)
    requires TokensFit(w)
    ensures TokensFit(Next(w, CreateSession(existing, newUser)))
  {
    var v := Next(w, CreateSession(existing, newUser));
    forall id | id in v.refreshes ensures RefreshFits(v, id) {
      assert RefreshFits(w, id);
    }
  }

  lemma StepKeepsIds(w: World, step: Step)
    requires TokensFit(w) && (step.Present? || step.Swap?)
    ensures StoredTokenFits(Next(w, step)) && FreshIds(Next(w, step))
  {
    if step.Swap? && step.id in w.refreshes {
      assert RefreshFits(w, step.id);
    }
    hide RefreshFits, MintedDiffer;
  }

  lemma PresentKeepsRefresh(w: World, id: nat, token: RefreshToken, i: nat)
    requires TokensFit(w) && i in Next(w, Present(id, token)).refreshes
    ensures RefreshFits(Next(w, Present(id, token)), i)
  {
    if i in w.refreshes {
      assert RefreshFits(w, i);
    }
    hide MintedDiffer;
  }

  lemma PresentKeepsTokens(w: World, id: nat, token: RefreshToken)
    requires TokensFit(w)
    ensures TokensFit(Next(w, Present(id, token)))
  {
    var v := Next(w, Present(id, token));
    StepKeepsIds(w, Present(id, token));
    forall i | i in v.refreshes ensures RefreshFits(v, i) {
      PresentKeepsRefresh(w, id, token, i);
    }
    forall i, j | i in v.refreshes && j in v.refreshes && i != j && v.refreshes[i].Validated? && v.refreshes[j].Validated?
      ensures v.refreshes[i].minted != v.refreshes[j].minted
    {
      assert i in w.refreshes ==> RefreshFits(w, i);
      assert j in w.refreshes ==> RefreshFits(w, j);
      hide StoredTokenFits;
    }
  }

  lemma SwapKeepsRefresh(w: World, id: nat, i: nat)
    requires TokensFit(w) && i in w.refreshes
    ensures i in Next(w, Swap(id)).refreshes && RefreshFits(Next(w, Swap(id)), i)
  {
    assert RefreshFits(w, i);
    if id in w.refreshes && w.refreshes[id].Validated? {
      assert RefreshFits(w, id);
      assert i != id && w.refreshes[i].Validated? ==> w.refreshes[i].minted != w.refreshes[id].minted;
      hide MintedDiffer, FreshIds, TokensFit;
    }
  }

  lemma SwapKeepsTokens(w: World, id: nat)
    requires TokensFit(w)
    ensures TokensFit(Next(w, Swap(id)))
  {
    var v := Next(w, Swap(id));
    StepKeepsIds(w, Swap(id));
    forall i | i in v.refreshes ensures RefreshFits(v, i) {
      SwapKeepsRefresh(w, id, i);
    }
    hide RefreshFits, StoredTokenFits, FreshIds;
  }

  lemma StepKeepsInv(w: World, step: Step)
    requires Inv(w)
    ensures Inv(Next(w, step))
  {
    StepKeepsTokens(w, step);
    StepKeepsTimes(w, step);
    hide TokensFit, TimesFit, Next;
  }

  // ---------------------------------------------------------------- whole runs

  lemma {:induction false} RunsKeepInv(w: World, steps: seq<Step>)
    requires Inv(w)
    ensures Inv(After(w, steps))
    decreases |steps|
  {
    hide Inv, Next;
    if steps != [] {
      StepKeepsInv(w, steps[0]);
      RunsKeepInv(Next(w, steps[0]), steps[1..]);
    }
  }

  /** Whatever interleaves, the stored hash is that of an unredeemed token of the stored session. */
  lemma StoredHashBelongsToTheSession(clock: int, active: set<UserId>, steps: seq<Step>)
    ensures var a := After(Initial(clock, active), steps).account;
      a.session.Some? ==> a.session.value.hash.token.sid == a.session.value.id && a.userId == Some(a.session.value.hash.token.sub)
  {
    hide After;
    InitialInv(clock, active);
    RunsKeepInv(Initial(clock, active), steps);
  }

  /** Two refreshes that both succeed did not present the same token. */
  lemma RedeemedAtMostOnce(clock: int, active: set<UserId>, steps: seq<Step>, i: nat, j: nat)
    requires var w := After(Initial(clock, active), steps);
      && i in w.refreshes && j in w.refreshes && w.refreshes[i].Succeeded? && w.refreshes[j].Succeeded?
      && w.refreshes[i].presented == w.refreshes[j].presented
    ensures i == j
  {
    hide After;
    InitialInv(clock, active);
    var w := After(Initial(clock, active), steps);
    RunsKeepInv(Initial(clock, active), steps);
    assert RefreshFits(w, i) && RefreshFits(w, j);
  }

  /** What a step may do to session ids, their expiries and the tokens redeemed under them. */
  predicate Follows(w: World, v: World) {
    && w.nextSid <= v.nextSid
    && (forall s <- w.expiryOf :: s in v.expiryOf && v.expiryOf[s] == w.expiryOf[s])
    && (v.account.session.Some? ==>
          (w.account.session.Some? && v.account.session.value.id == w.account.session.value.id) || v.account.session.value.id >= w.nextSid)
    && (forall t <- v.redeemed ::
          t in w.redeemed || t.sid >= w.nextSid || (w.account.session.Some? && t.sid == w.account.session.value.id))
  }

  lemma StepFollows(w: World, step: Step)
    requires Inv(w)
    ensures Follows(w, Next(w, step))
  {
    if step.Swap? && step.id in w.refreshes {
      assert RefreshFits(w, step.id);
    }
  }

  lemma {:induction false} RunFollows(w: World, steps: seq<Step>)
    requires Inv(w)
    ensures Follows(w, After(w, steps))
    decreases |steps|
  {
    hide Inv, Next;
    if steps != [] {
      StepKeepsInv(w, steps[0]);
      StepFollows(w, steps[0]);
      RunFollows(Next(w, steps[0]), steps[1..]);
    }
  }

  /** Refreshing never moves a session's expiry: as long as the session is the stored one, so is the expiry it was created with. */
  lemma ExpiryIsFixed(w: World, steps: seq<Step>)
    requires Inv(w) && w.account.session.Some?
    ensures var v := After(w, steps).account.session;
      v.Some? && v.value.id == w.account.session.value.id ==> v.value.expiresAt == w.account.session.value.expiresAt
  {
    hide After;
    RunFollows(w, steps);
    RunsKeepInv(w, steps);
  }

  /** A session that was replaced is gone for good: no request with its access token passes, and none of its tokens is redeemed. */
  lemma ReplacedSessionIsDead(w: World, steps: seq<Step>, sid: SessionId)
    requires Inv(w) && sid < w.nextSid && (w.account.session.Some? ==> w.account.session.value.id != sid)
    ensures var v := After(w, steps);
      && (forall t: AccessToken :: t.sid == sid ==> !Admits(v.account, v.active, t))
      && (forall t <- v.redeemed :: t.sid == sid ==> t in w.redeemed)
  {
    hide After;
    RunFollows(w, steps);
  }

  /**
   Over every run, a session is refreshed for thirty days and no longer: each of its tokens was issued less than 2592000000 milliseconds
   after the session was created.
   */
  lemma NothingIsIssuedAfterThirtyDays(clock: int, active: set<UserId>, steps: seq<Step>, t: RefreshToken)
    requires t in After(Initial(clock, active), steps).issued
    ensures var w := After(Initial(clock, active), steps);
      && t in w.issuedAt && t.sid in w.createdAt && w.issuedAt[t] <= w.clock
      && w.createdAt[t.sid] <= w.issuedAt[t] < w.createdAt[t.sid] + 2_592_000_000
  {
    hide After;
    InitialInv(clock, active);
    RunsKeepInv(Initial(clock, active), steps);
  }

  /** At any moment, a token is refused exactly if user, session, activity of the user, stored hash, or expiry is against it. */
  lemma RefusedIff(w: World, id: nat, token: RefreshToken)
    requires Inv(w) && id !in w.refreshes && token in w.issued
    ensures var v, a := Next(w, Present(id, token)), w.account;
      && id in v.refreshes
      && (v.refreshes[id] == Refused <==>
            || a.userId != Some(token.sub) || a.session.None? || a.session.value.id != token.sid || token.sub !in w.active
            || a.session.value.hash != Hash(token) || w.clock >= a.session.value.expiresAt)
      && (v.refreshes[id] == Refused ==> v == w.(refreshes := w.refreshes[id := Refused]))
      && (v.refreshes[id] != Refused ==>
            && v.refreshes[id] == Validated(token, RefreshToken(token.sub, token.sid, w.nextJti), a.session.value.expiresAt)
            && v.account == a && v.refreshes[id].minted !in w.issued && v.issued == w.issued + {v.refreshes[id].minted})
  {
  }

  /** Once the stored session has expired, every refresh that is presented is refused, whatever happened before. */
  lemma ExpiredSessionIsRefused(clock: int, active: set<UserId>, steps: seq<Step>, id: nat, token: RefreshToken)
    requires var w := After(Initial(clock, active), steps);
      && id !in w.refreshes && token in w.issued && w.account.session.Some? && w.account.session.value.expiresAt <= w.clock
    ensures var w := After(Initial(clock, active), steps);
      && Next(w, Present(id, token)) == w.(refreshes := w.refreshes[id := Refused])
      && w.account.session.value.id in w.createdAt
      && w.account.session.value.expiresAt == w.createdAt[w.account.session.value.id] + 2_592_000_000
  {
    hide After;
    var w := After(Initial(clock, active), steps);
    InitialInv(clock, active);
    RunsKeepInv(Initial(clock, active), steps);
    RefusedIff(w, id, token);
  }

  /** Who passes: the access token of the stored session, as long as its user is the stored one and active. */
  lemma AdmittedIff(w: World, t: AccessToken)
    requires Inv(w)
    ensures Admits(w.account, w.active, t) <==>
      w.account.session.Some? && t.sub in w.active
      && t == AccessToken(w.account.session.value.hash.token.sub, w.account.session.value.hash.token.sid)
  {
  }

  /** Whom a session is for: the account's user, else the only one there is, else the new one; with several, nobody. */
  lemma SessionUserIff(a: Account, existing: seq<UserId>, newUser: UserId)
    ensures var user := SessionUser(a, existing, newUser);
      && (a.userId.Some? ==> user == a.userId)
      && (a.userId.None? && |existing| == 0 ==> user == Some(newUser))
      && (a.userId.None? && |existing| == 1 ==> user == Some(existing[0]))
      && (a.userId.None? && |existing| >= 2 ==> user.None?)
  {
  }

  /** Creating a session replaces the stored one, with fresh identifiers, for an active user; or changes nothing. */
  lemma SessionIsCreatedIff(w: World, existing: seq<UserId>, newUser: UserId)
    requires Inv(w)
    ensures var v, user := Next(w, CreateSession(existing, newUser)), SessionUser(w.account, existing, newUser);
      && (v != w <==> user.Some? && (user.value in w.active || (w.account.userId.None? && |existing| == 0)))
      && (v != w ==>
            && v.account.userId == user && v.account.session.Some?
            && v.account.session.value.id !in w.createdAt && v.account.session.value.hash.token !in w.issued
            && v.account.session.value.expiresAt == w.clock + 2_592_000_000
            && user.value in v.active && w.active <= v.active <= w.active + {user.value})
  {
  }

  /**
   Without interference a refresh succeeds exactly if user, session, activity of the user, stored hash and expiry all agree; then its token
   is spent and the minted one is stored. Otherwise it is refused and the account is as before.
   */
  lemma UninterruptedRefresh(w: World, id: nat, token: RefreshToken)
    requires Inv(w) && id !in w.refreshes && token in w.issued
    ensures var v, a := Next(Next(w, Present(id, token)), Swap(id)), w.account;
      && id in v.refreshes
      && (v.refreshes[id].Succeeded? <==>
            && a.userId == Some(token.sub) && a.session.Some? && a.session.value.id == token.sid && token.sub in w.active
            && a.session.value.hash == Hash(token) && w.clock < a.session.value.expiresAt)
      && (v.refreshes[id].Succeeded? ==>
            && v.account == a.(session := Some(a.session.value.(hash := Hash(v.refreshes[id].minted))))
            && v.refreshes[id].minted !in w.issued
            && !Validates(v.account, v.active, token, v.clock))
      && (!v.refreshes[id].Succeeded? ==> v.refreshes[id] == Refused && v.account == a && v.issued == w.issued)
  {
    RefusedIff(w, id, token);
  }

  /** Of two refreshes that validated the same token, the second to swap is refused. */
  lemma SecondSwapIsRefused(w: World, i: nat, j: nat)
    requires Inv(w) && i != j && i in w.refreshes && j in w.refreshes && w.refreshes[i].Validated? && w.refreshes[j].Validated?
    requires w.refreshes[i].presented == w.refreshes[j].presented && CanSwap(w.account, w.refreshes[i].presented)
    ensures Next(Next(w, Swap(i)), Swap(j)).refreshes[j] == Refused
    ensures Next(Next(w, Swap(i)), Swap(j)).account == Next(w, Swap(i)).account
  {
    assert RefreshFits(w, i);
  }

  // ---------------------------------------------------------------- the service, in place

  class AuthService {
    var account: Account
    var active: set<UserId>
    var nextSid: nat
    var nextJti: nat

    constructor (users: set<UserId>)
      ensures account == Account(None, None) && active == users && nextSid == 0 && nextJti == 0
    {
      account, active, nextSid, nextJti := Account(None, None), users, 0, 0;
    }

    method CreateLocalSession(existing: seq<UserId>, newUser: UserId, now: int) returns (r: Option<RefreshToken>)
      modifies this
      ensures var user := SessionUser(old(account), existing, newUser);
        && (r.Some? <==> user.Some? && (user.value in old(active) || (old(account).userId.None? && existing == [])))
        && (r.Some? ==> r.value == RefreshToken(user.value, old(nextSid), old(nextJti))
                        && account == StartSession(old(account), user.value, old(nextSid), old(nextJti), now)
                        && active == ActiveAfter(old(account), old(active), existing, newUser)
                        && nextSid == old(nextSid) + 1 && nextJti == old(nextJti) + 1)
        && (r.None? ==> account == old(account) && active == old(active) && nextSid == old(nextSid) && nextJti == old(nextJti))
    {
      var user, users := account.userId, active;
      if user.None? {
        if |existing| > 1 {
          return None;
        }
        if |existing| == 1 {
          user := Some(existing[0]);
        } else {
          user := Some(newUser);
          users := users + {newUser};
        }
      }
      if user.value !in users {
        return None;
      }
      var token := RefreshToken(user.value, nextSid, nextJti);
      account, active := Account(user, Some(Session(nextSid, Hash(token), now + LIFETIME_MS))), users;
      nextSid, nextJti := nextSid + 1, nextJti + 1;
      return Some(token);
    }

    /** The first half of a refresh, up to the minted pair. */
    method ValidateAndMint(token: RefreshToken, now: int) returns (r: Option<RefreshToken>)
      modifies this`nextJti
      ensures r.Some? <==> Validates(account, active, token, now)
      ensures r.Some? <==> (
        && account.userId == Some(token.sub) && account.session.Some? && account.session.value.id == token.sid
        && token.sub in active && account.session.value.hash == Hash(token) && now < account.session.value.expiresAt)
      ensures r.Some? ==> r.value == RefreshToken(token.sub, token.sid, old(nextJti)) && nextJti == old(nextJti) + 1
      ensures r.None? ==> nextJti == old(nextJti)
    {
      if account.userId != Some(token.sub) || account.session.None? || account.session.value.id != token.sid {
        return None;
      }
      var session := account.session.value;
      if token.sub !in active || session.hash != Hash(token) || session.expiresAt <= now {
        return None;
      }
      r := Some(RefreshToken(token.sub, session.id, nextJti));
      nextJti := nextJti + 1;
    }

    /** The second half: the conditional update. */
    method Rotate(token: RefreshToken, minted: RefreshToken) returns (swapped: bool)
      modifies this`account
      ensures swapped <==> CanSwap(old(account), token)
      ensures account == SwapHash(old(account), token, minted)
    {
      if account.userId == Some(token.sub) && account.session.Some? && account.session.value.hash == Hash(token) {
        var session := account.session.value;
        account := account.(session := Some(session.(hash := Hash(minted))));
        return true;
      }
      return false;
    }
  }
}
