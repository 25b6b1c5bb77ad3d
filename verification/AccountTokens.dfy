/**
 Account e-mail and password tokens: panel/internal/auth/email.go, password_email.go, password.go and
 ChangePassword of user.go. A table is a map, a transaction one method: either all of it happens or
 the state is unchanged. Times are whole seconds; a token's secret stands for its hash, a password for
 its bcrypt hash, and `lower` for SQLite's lower().
 */
module AccountTokens {
  import opened Wrappers

  datatype Purpose = VerifyEmail | ChangeEmail | ResetPassword

  datatype Token = Token(user: int, purpose: Purpose, target: string, secret: int, expires: int, used: Option<int>, created: int)

  datatype User = User(email: Option<string>, verified: Option<int>, password: string)

  datatype Status = Pending | Approved | Rejected

  datatype Request = Request(user: int, proposed: Option<string>, status: Status)

  datatype Failure =
    | InvalidEmail | UserNotFound | InvalidCredentials | EmailUnchanged | EmailTaken | RateLimited
    | VerificationInvalid | ResetTokenInvalid | InvalidPassword | PasswordUnchanged
    | RequestPending | RequestNotFound | SelfReview

  const EMAIL_REQUEST_INTERVAL: int := 60
  const EMAIL_VERIFICATION_LIFETIME: int := 1800
  const PASSWORD_RESET_LIFETIME: int := 1800

  type Tokens = map<int, Token>
  type Users = map<int, User>

  /** The two classes of tokens that exclude one another within a user. */
  predicate SameClass(a: Purpose, b: Purpose) {
    a.ResetPassword? <==> b.ResetPassword?
  }

  predicate Open(t: Token, user: int, purpose: Purpose) {
    t.user == user && SameClass(t.purpose, purpose) && t.used.None?
  }

  /** UPDATE account_tokens SET used_at = now WHERE user_id = user AND the class AND used_at IS NULL. */
  function Invalidated(tokens: Tokens, user: int, purpose: Purpose, now: int): (r: Tokens) {
    map id | id in tokens :: if Open(tokens[id], user, purpose) then tokens[id].(used := Some(now)) else tokens[id]
  }

  /** UPDATE account_tokens SET used_at = now WHERE id = id AND user_id = user AND used_at IS NULL. */
  function UsedUp(tokens: Tokens, id: int, user: int, now: int): (r: Tokens) {
    if id in tokens && tokens[id].user == user && tokens[id].used.None? then tokens[id := tokens[id].(used := Some(now))] else tokens
  }

  /** DELETE FROM sessions WHERE user_id = user. */
  function SignedOut(sessions: map<int, int>, user: int): (r: map<int, int>) {
    map s | s in sessions && sessions[s] != user :: sessions[s]
  }

  /** DELETE FROM password_change_requests WHERE user_id = user AND status = 'pending'. */
  function Superseded(requests: map<int, Request>, user: int): (r: map<int, Request>) {
    map q | q in requests && !(requests[q].user == user && requests[q].status.Pending?) :: requests[q]
  }

  predicate Taken(users: Users, lower: string -> string, email: string, except: int) {
    exists u :: u in users && u != except && users[u].email.Some? && lower(users[u].email.value) == lower(email)
  }

  /** Whether the newest token of the class is less than the interval old. */
  predicate RecentlyIssued(tokens: Tokens, user: int, purpose: Purpose, now: int) {
    exists id ::
      id in tokens && tokens[id].user == user && SameClass(tokens[id].purpose, purpose) && now - tokens[id].created < EMAIL_REQUEST_INTERVAL
  }

  predicate NoOpen(tokens: Tokens, user: int, purpose: Purpose) {
    forall id :: id in tokens ==> !Open(tokens[id], user, purpose)
  }

  // The invariants.

  /** At most one unused token of a class per user. */
  ghost predicate OneOpen(tokens: Tokens) {
    forall i, j :: i in tokens && j in tokens && Open(tokens[i], tokens[j].user, tokens[j].purpose) && tokens[j].used.None? ==> i == j
  }

  /** Issues of one class to one user are at least the interval apart, cancelled ones included. */
  ghost predicate Spaced(tokens: Tokens) {
    forall i, j :: i in tokens && j in tokens && i < j && tokens[i].user == tokens[j].user && SameClass(tokens[i].purpose, tokens[j].purpose) ==>
      tokens[i].created + 60 <= tokens[j].created
  }

  /** An unused reset token is for the user's current verified address. */
  ghost predicate ResetOnTarget(users: Users, tokens: Tokens) {
    forall id :: id in tokens && tokens[id].purpose.ResetPassword? && tokens[id].used.None? ==>
      && tokens[id].user in users
      && users[tokens[id].user].email == Some(tokens[id].target) && users[tokens[id].user].verified.Some?
  }

  ghost predicate UniqueEmails(users: Users, lower: string -> string) {
    forall u, w :: u in users && w in users && u != w && users[u].email.Some? && users[w].email.Some? ==>
      lower(users[u].email.value) != lower(users[w].email.value)
  }

  ghost predicate UniqueSecrets(tokens: Tokens) {
    forall i, j :: i in tokens && j in tokens && tokens[i].secret == tokens[j].secret ==> i == j
  }

  /** A token is redeemed at most once, and then it is used. */
  ghost predicate RedeemedOnce(tokens: Tokens, redeemed: map<int, nat>) {
    forall id :: id in redeemed ==> redeemed[id] <= 1 && (id in tokens ==> tokens[id].used.Some?)
  }

  ghost predicate TokenInvariant(tokens: Tokens, nextID: int, redeemed: map<int, nat>) {
    && OneOpen(tokens) && Spaced(tokens) && UniqueSecrets(tokens) && RedeemedOnce(tokens, redeemed)
    && (forall id :: id in tokens ==> id < nextID) && (forall id :: id in redeemed ==> id < nextID)
  }

  /** No session or request has a number that is still to be given. */
  ghost predicate Numbered(sessions: map<int, int>, requests: map<int, Request>, nextID: int) {
    (forall s :: s in sessions ==> s < nextID) && forall q :: q in requests ==> q < nextID
  }

  lemma FewerNumbered(sessions: map<int, int>, requests: map<int, Request>, nextID: int, user: int)
    requires Numbered(sessions, requests, nextID)
    ensures Numbered(SignedOut(sessions, user), Superseded(requests, user), nextID)
  {
  }

  lemma InvalidatedKeeps(tokens: Tokens, nextID: int, redeemed: map<int, nat>, user: int, purpose: Purpose, now: int)
    requires TokenInvariant(tokens, nextID, redeemed)
    ensures TokenInvariant(Invalidated(tokens, user, purpose, now), nextID, redeemed)
    ensures NoOpen(Invalidated(tokens, user, purpose, now), user, purpose)
  {
  }

  /** First verification and change of an address exclude one another. */
  lemma OneClass(tokens: Tokens, user: int, now: int)
    ensures Invalidated(tokens, user, ChangeEmail, now) == Invalidated(tokens, user, VerifyEmail, now)
  {
    assert forall id :: id in tokens ==> Open(tokens[id], user, ChangeEmail) == Open(tokens[id], user, VerifyEmail);
  }

  lemma OneToken(tokens: Tokens, nextID: int, redeemed: map<int, nat>, id: int)
    requires TokenInvariant(tokens, nextID, redeemed) && id in tokens
    ensures forall other :: other in tokens && tokens[other].secret == tokens[id].secret ==> other == id
  {
  }

  lemma UsedUpKeeps(tokens: Tokens, nextID: int, redeemed: map<int, nat>, id: int, user: int, now: int)
    requires TokenInvariant(tokens, nextID, redeemed)
    ensures TokenInvariant(UsedUp(tokens, id, user, now), nextID, redeemed)
  {
  }

  lemma RedeemKeeps(tokens: Tokens, nextID: int, redeemed: map<int, nat>, id: int, now: int)
    requires TokenInvariant(tokens, nextID, redeemed) && id in tokens && tokens[id].used.None?
    ensures id !in redeemed
    ensures TokenInvariant(UsedUp(tokens, id, tokens[id].user, now), nextID, redeemed[id := 1])
  {
  }

  /** Issuing after invalidating: the new token is the only open one of its class, and spaced. */
  lemma IssueKeeps(tokens: Tokens, nextID: int, redeemed: map<int, nat>, t: Token)
    requires TokenInvariant(tokens, nextID, redeemed)
    requires NoOpen(tokens, t.user, t.purpose) && !RecentlyIssued(tokens, t.user, t.purpose, t.created)
    requires forall id :: id in tokens ==> tokens[id].secret != t.secret
    ensures TokenInvariant(tokens[nextID := t], nextID + 1, redeemed)
  {
  }

  /** What VerifyEmail does to the tokens: redeem one, close its class, and when the address moved also
      the reset tokens. */
  function VerifyConsumed(tokens: Tokens, id: int, now: int, moved: bool): (r: Tokens)
    requires id in tokens
  {
    var cleared := Invalidated(UsedUp(tokens, id, tokens[id].user, now), tokens[id].user, VerifyEmail, now);
    if moved then Invalidated(cleared, tokens[id].user, ResetPassword, now) else cleared
  }

  /** What ResetPasswordByEmail does to them. */
  function ResetConsumed(tokens: Tokens, id: int, now: int): (r: Tokens)
    requires id in tokens
  {
    Invalidated(UsedUp(tokens, id, tokens[id].user, now), tokens[id].user, ResetPassword, now)
  }

  /** Rows only ever go from unused to used. */
  ghost predicate OnlyClosed(before: Tokens, after: Tokens) {
    after.Keys == before.Keys && forall i :: i in after && after[i].used.None? ==> after[i] == before[i]
  }

  /** Closing a class after a redemption: still at most one open token a class, and none in this one. */
  lemma ClosedKeeps(tokens: Tokens, nextID: int, redeemed: map<int, nat>, user: int, purpose: Purpose, now: int)
    requires TokenInvariant(tokens, nextID, redeemed)
    ensures TokenInvariant(Invalidated(tokens, user, purpose, now), nextID, redeemed)
    ensures NoOpen(Invalidated(tokens, user, purpose, now), user, purpose) && OnlyClosed(tokens, Invalidated(tokens, user, purpose, now))
    ensures forall u, p :: NoOpen(tokens, u, p) ==> NoOpen(Invalidated(tokens, user, purpose, now), u, p)
  {
    InvalidatedKeeps(tokens, nextID, redeemed, user, purpose, now);
    hide TokenInvariant;
  }

  lemma VerifyConsumedKeeps(tokens: Tokens, nextID: int, redeemed: map<int, nat>, id: int, now: int, moved: bool)
    requires TokenInvariant(tokens, nextID, redeemed) && id in tokens && tokens[id].used.None?
    ensures id !in redeemed && OnlyClosed(tokens, VerifyConsumed(tokens, id, now, moved))
    ensures TokenInvariant(VerifyConsumed(tokens, id, now, moved), nextID, redeemed[id := 1])
    ensures NoOpen(VerifyConsumed(tokens, id, now, moved), tokens[id].user, VerifyEmail)
    ensures moved ==> NoOpen(VerifyConsumed(tokens, id, now, moved), tokens[id].user, ResetPassword)
  {
    var user := tokens[id].user;
    var consumed := UsedUp(tokens, id, user, now);
    RedeemKeeps(tokens, nextID, redeemed, id, now);
    assert OnlyClosed(tokens, consumed);
    hide TokenInvariant, NoOpen, Invalidated, UsedUp;
    var cleared := Invalidated(consumed, user, VerifyEmail, now);
    ClosedKeeps(consumed, nextID, redeemed[id := 1], user, VerifyEmail, now);
    ClosedKeeps(cleared, nextID, redeemed[id := 1], user, ResetPassword, now);
  }

  lemma ResetConsumedKeeps(tokens: Tokens, nextID: int, redeemed: map<int, nat>, id: int, now: int)
    requires TokenInvariant(tokens, nextID, redeemed) && id in tokens && tokens[id].used.None?
    ensures id !in redeemed && OnlyClosed(tokens, ResetConsumed(tokens, id, now))
    ensures TokenInvariant(ResetConsumed(tokens, id, now), nextID, redeemed[id := 1])
    ensures NoOpen(ResetConsumed(tokens, id, now), tokens[id].user, ResetPassword)
  {
    RedeemKeeps(tokens, nextID, redeemed, id, now);
    InvalidatedKeeps(UsedUp(tokens, id, tokens[id].user, now), nextID, redeemed[id := 1], tokens[id].user, ResetPassword, now);
    hide TokenInvariant;
  }

  /** All tables at one moment; `redeemed` counts the redemptions of a token. */
  datatype View = View(users: Users, tokens: Tokens, sessions: map<int, int>, requests: map<int, Request>, nextID: int,
                       redeemed: map<int, nat>)

  datatype Operation =
    | Registers(user: int, password: string)
    | SignsIn(user: int)
    | AsksVerification(user: int, target: Option<string>, password: string, secret: int, now: int)
    | Cancels(id: int, user: int, now: int)
    | CancelsReset(id: int, user: int, now: int)
    | VerifiesEmail(secret: int, now: int)
    | AsksReset(user: int, secret: int, now: int)
    | ResetsPassword(secret: int, password: string, now: int)
    | AsksReview(user: int, proposed: string)
    | Reviews(id: int, admin: int, approve: bool, now: int)
    | ChangesPassword(user: int, current: string, password: string, now: int)

  /** A new user's id is new, and a secret is drawn that no token has. */
  predicate Enabled(v: View, o: Operation) {
    match o
    case Registers(user, _) => user !in v.users
    case SignsIn(user) => user in v.users
    case AsksVerification(_, _, _, secret, _) => forall id :: id in v.tokens ==> v.tokens[id].secret != secret
    case AsksReset(_, secret, _) => forall id :: id in v.tokens ==> v.tokens[id].secret != secret
    case _ => true
  }

  function Issued(v: View, t: Token): (w: View) {
    v.(tokens := Invalidated(v.tokens, t.user, t.purpose, t.created)[v.nextID := t], nextID := v.nextID + 1)
  }

  /** The user has a new password, no session, and no open reset token. */
  function LockedDown(v: View, user: int, password: string, now: int): (w: View)
    requires user in v.users
  {
    v.(users := v.users[user := v.users[user].(password := password)], sessions := SignedOut(v.sessions, user),
       tokens := Invalidated(v.tokens, user, ResetPassword, now))
  }

  predicate Fresh(v: View, id: int, secret: int, now: int) {
    && id in v.tokens && v.tokens[id].secret == secret && v.tokens[id].used.None? && v.tokens[id].expires > now
    && v.tokens[id].user in v.users
  }

  /** The token verifies its address now. */
  predicate CanVerify(v: View, id: int, secret: int, now: int, lower: string -> string) {
    && Fresh(v, id, secret, now) && !v.tokens[id].purpose.ResetPassword?
    && !Taken(v.users, lower, v.tokens[id].target, v.tokens[id].user)
  }

  function Verified(v: View, id: int, now: int): (w: View)
    requires id in v.tokens && v.tokens[id].user in v.users
  {
    var t := v.tokens[id];
    var current := v.users[t.user];
    v.(users := v.users[t.user := current.(email := Some(t.target), verified := Some(now))],
       tokens := VerifyConsumed(v.tokens, id, now, current.email.Some? && current.email.value != t.target),
       redeemed := v.redeemed[id := if id in v.redeemed then v.redeemed[id] + 1 else 1])
  }

  function Redemptions(v: View, id: int): (n: nat) {
    if id in v.redeemed then v.redeemed[id] else 0
  }

  /** The token resets a password now. */
  predicate CanReset(v: View, id: int, secret: int, now: int) {
    && Fresh(v, id, secret, now) && v.tokens[id].purpose.ResetPassword?
    && v.users[v.tokens[id].user].verified.Some? && v.users[v.tokens[id].user].email == Some(v.tokens[id].target)
  }

  function Reset(v: View, id: int, password: string, now: int): (w: View)
    requires id in v.tokens && v.tokens[id].user in v.users
  {
    var user := v.tokens[id].user;
    v.(users := v.users[user := v.users[user].(password := password)], tokens := ResetConsumed(v.tokens, id, now),
       redeemed := v.redeemed[id := if id in v.redeemed then v.redeemed[id] + 1 else 1], sessions := SignedOut(v.sessions, user),
       requests := Superseded(v.requests, user))
  }

  /** The request is open, somebody else's, and can be carried out. */
  predicate CanReview(v: View, id: int, admin: int, approve: bool) {
    && id in v.requests && v.requests[id].status.Pending? && v.requests[id].user != admin
    && (approve ==> v.requests[id].proposed.Some? && v.requests[id].user in v.users)
  }

  /** What an operation makes of the tables; a refused one leaves them alone. */
  ghost predicate Step(v: View, o: Operation, w: View, lower: string -> string) {
    match o
    case Registers(user, password) => w == v.(users := v.users[user := User(None, None, password)])
    case SignsIn(user) => w == v.(sessions := v.sessions[v.nextID := user], nextID := v.nextID + 1)
    case AsksVerification(user, target, password, secret, now) =>
      w == if && target.Some? && user in v.users && v.users[user].password == password && v.users[user].email != target
              && !Taken(v.users, lower, target.value, user) && !RecentlyIssued(v.tokens, user, VerifyEmail, now)
           then Issued(v, Token(user, if v.users[user].email.Some? then ChangeEmail else VerifyEmail, target.value, secret,
                                now + EMAIL_VERIFICATION_LIFETIME, None, now))
           else v
    case Cancels(id, user, now) => w == v.(tokens := UsedUp(v.tokens, id, user, now))
    case CancelsReset(id, user, now) =>
      w == if id in v.tokens && v.tokens[id].purpose.ResetPassword? then v.(tokens := UsedUp(v.tokens, id, user, now)) else v
    case VerifiesEmail(secret, now) =>
      || (exists id :: CanVerify(v, id, secret, now, lower) && w == Verified(v, id, now))
      || ((forall id :: !CanVerify(v, id, secret, now, lower)) && w == v)
    case AsksReset(user, secret, now) =>
      w == if user in v.users && v.users[user].email.Some? && v.users[user].verified.Some? && !RecentlyIssued(v.tokens, user, ResetPassword, now)
           then Issued(v, Token(user, ResetPassword, v.users[user].email.value, secret, now + PASSWORD_RESET_LIFETIME, None, now))
           else v
    case ResetsPassword(secret, password, now) =>
      || (ValidPassword(password) && exists id :: CanReset(v, id, secret, now) && w == Reset(v, id, password, now))
      || ((ValidPassword(password) ==> forall id :: !CanReset(v, id, secret, now)) && w == v)
    case AsksReview(user, proposed) =>
      w == if user in v.users && forall q :: q in v.requests ==> !(v.requests[q].user == user && v.requests[q].status.Pending?)
           then v.(requests := v.requests[v.nextID := Request(user, Some(proposed), Pending)], nextID := v.nextID + 1) else v
    case Reviews(id, admin, approve, now) =>
      w == if CanReview(v, id, admin, approve)
           then Reviewed(v, id, approve, now) else v
    case ChangesPassword(user, current, password, now) =>
      w == if ValidPassword(password) && user in v.users && v.users[user].password == current && current != password
           then LockedDown(v, user, password, now) else v
  }

  function Reviewed(v: View, id: int, approve: bool, now: int): (w: View)
    requires id in v.requests && (approve ==> v.requests[id].proposed.Some? && v.requests[id].user in v.users)
  {
    var request := v.requests[id];
    var changed := if approve then LockedDown(v, request.user, request.proposed.value, now) else v;
    changed.(requests := v.requests[id := Request(request.user, None, if approve then Approved else Rejected)])
  }

  class Accounts {
    var users: Users
    var tokens: Tokens
    /** Session to user. */
    var sessions: map<int, int>
    var requests: map<int, Request>
    var nextID: int
    const lower: string -> string
    ghost var redeemed: map<int, nat>

    ghost predicate Valid()
      reads this
    {
      && TokenInvariant(tokens, nextID, redeemed) && ResetOnTarget(users, tokens) && UniqueEmails(users, lower)
      && Numbered(sessions, requests, nextID)
    }

    ghost function Now(): (v: View)
      reads this
    {
      View(users, tokens, sessions, requests, nextID, redeemed)
    }

    /** Nothing but what a refused transaction may change: nothing. */
    twostate predicate Unchanged()
      reads this
    {
      users == old(users) && tokens == old(tokens) && sessions == old(sessions) && requests == old(requests)
      && nextID == old(nextID) && redeemed == old(redeemed)
    }

    constructor (lower: string -> string)
      ensures Valid() && users == map[] && tokens == map[] && sessions == map[] && requests == map[]
    {
      this.lower := lower;
      users, tokens, sessions, requests, nextID, redeemed := map[], map[], map[], map[], 0, map[];
    }

    /** `PrepareEmailVerification`; `target` is the normalized mailbox, None when it is not one. */
    method PrepareEmailVerification(user: int, target: Option<string>, password: string, secret: int, now: int) returns (r: Result<int, Failure>)
      requires Valid() && forall id :: id in tokens ==> tokens[id].secret != secret
      modifies this
      ensures Valid()
      ensures r.Err? ==> Unchanged()
      ensures r.Ok? <==> target.Some? && user in old(users) && old(users)[user].password == password && old(users)[user].email != target
                         && !Taken(old(users), lower, target.value, user) && !RecentlyIssued(old(tokens), user, VerifyEmail, now)
      ensures r.Ok? ==> users == old(users) && r.value !in old(tokens) && r.value in tokens
                        && tokens[r.value].user == user && tokens[r.value].target == target.value && tokens[r.value].used.None?
                        && tokens[r.value].expires == now + 1800 && tokens[r.value].created == now && tokens[r.value].secret == secret
                        && tokens[r.value].purpose == (if old(users)[user].email.Some? then ChangeEmail else VerifyEmail)
                        && tokens - {r.value} == Invalidated(old(tokens), user, VerifyEmail, now)
      ensures Step(old(Now()), AsksVerification(user, target, password, secret, now), Now(), lower)
    {
      hide TokenInvariant, UniqueEmails;
      if target.None? {
        return Err(InvalidEmail);
      }
      if user !in users {
        return Err(UserNotFound);
      }
      var current := users[user];
      if current.password != password {
        return Err(InvalidCredentials);
      }
      if current.email == target {
        return Err(EmailUnchanged);
      }
      if exists u :: u in users && u != user && users[u].email.Some? && lower(users[u].email.value) == lower(target.value) {
        return Err(EmailTaken);
      }
      if exists id :: id in tokens && tokens[id].user == user && !tokens[id].purpose.ResetPassword? && now - tokens[id].created < 60 {
        return Err(RateLimited);
      }
      var purpose := if current.email.Some? then ChangeEmail else VerifyEmail;
      var issued := Token(user, purpose, target.value, secret, now + EMAIL_VERIFICATION_LIFETIME, None, now);
      InvalidatedKeeps(tokens, nextID, redeemed, user, VerifyEmail, now);
      OneClass(tokens, user, now);
      var cleared := Invalidated(tokens, user, VerifyEmail, now);
      IssueKeeps(cleared, nextID, redeemed, issued);
      r := Ok(nextID);
      tokens := cleared[nextID := issued];
      nextID := nextID + 1;
      assert tokens - {r.value} == cleared;
    }

    /** `CancelEmailVerification`: the row stays, so its time counts on. */
    method Cancel(id: int, user: int, now: int)
      requires Valid()
      modifies `tokens
      ensures Valid() && tokens == UsedUp(old(tokens), id, user, now) && tokens.Keys == old(tokens).Keys
      ensures Step(old(Now()), Cancels(id, user, now), Now(), lower)
      ensures forall i :: i in tokens ==> tokens[i].created == old(tokens)[i].created
    {
      UsedUpKeeps(tokens, nextID, redeemed, id, user, now);
      hide TokenInvariant;
      tokens := UsedUp(tokens, id, user, now);
    }

    /** `CancelPasswordResetEmail`: the same, for reset tokens only. */
    method CancelPasswordReset(id: int, user: int, now: int)
      requires Valid()
      modifies `tokens
      ensures Valid() && tokens.Keys == old(tokens).Keys
      ensures tokens == if id in old(tokens) && old(tokens)[id].purpose.ResetPassword? then UsedUp(old(tokens), id, user, now) else old(tokens)
      ensures Step(old(Now()), CancelsReset(id, user, now), Now(), lower)
      ensures forall i :: i in tokens ==> tokens[i].created == old(tokens)[i].created
    {
      if id in tokens && tokens[id].purpose.ResetPassword? {
        Cancel(id, user, now);
      }
    }

    /** `VerifyEmail`: redeems a token of its class and binds the address; a refusal changes nothing. */
    method VerifyEmailToken(secret: int, now: int) returns (r: Result<int, Failure>)
      requires Valid()
      modifies this
      ensures Valid()
      ensures r.Err? ==> Unchanged()
      ensures r.Ok? <==> exists id ::
                id in old(tokens) && old(Verifies(id, secret, now)) && !Taken(old(users), lower, old(tokens)[id].target, old(tokens)[id].user)
      ensures r == Err(EmailTaken) <==> exists id ::
                id in old(tokens) && old(Verifies(id, secret, now)) && Taken(old(users), lower, old(tokens)[id].target, old(tokens)[id].user)
      ensures r.Ok? ==> r.value in old(tokens) && old(Verifies(r.value, secret, now))
      ensures r.Ok? ==> r.value !in old(redeemed) && redeemed == old(redeemed)[r.value := 1]
      ensures r.Ok? ==>
                var t := old(tokens)[r.value];
                && users == old(users)[t.user := old(users)[t.user].(email := Some(t.target), verified := Some(now))]
                && sessions == old(sessions) && requests == old(requests)
                && NoOpen(tokens, t.user, VerifyEmail)
                && (old(users)[t.user].email.Some? && old(users)[t.user].email.value != t.target ==> NoOpen(tokens, t.user, ResetPassword))
                && OnlyClosed(old(tokens), tokens)
      ensures Step(old(Now()), VerifiesEmail(secret, now), Now(), lower)
    {
      hide TokenInvariant, VerifyConsumed, ResetOnTarget, UniqueEmails, NoOpen, OnlyClosed;
      if !exists id :: id in tokens && Verifies(id, secret, now) {
        return Err(VerificationInvalid);
      }
      var id :| id in tokens && Verifies(id, secret, now);
      var t := tokens[id];
      ghost var before := Now();
      OneToken(tokens, nextID, redeemed, id);
      if exists u :: u in users && u != t.user && users[u].email.Some? && lower(users[u].email.value) == lower(t.target) {
        return Err(EmailTaken);
      }
      var current := users[t.user];
      var moved := current.email.Some? && current.email.value != t.target;
      VerifyConsumedKeeps(tokens, nextID, redeemed, id, now, moved);
      var cleared := VerifyConsumed(tokens, id, now, moved);
      NewAddressKeeps(users, tokens, cleared, t.user, current.(email := Some(t.target), verified := Some(now)), lower);
      users := users[t.user := current.(email := Some(t.target), verified := Some(now))];
      tokens := cleared;
      redeemed := redeemed[id := Redemptions(before, id) + 1];
      r := Ok(id);
      assert CanVerify(before, id, secret, now, lower) && Now() == Verified(before, id, now);
    }

    /** The join of VerifyEmail. */
    predicate Verifies(id: int, secret: int, now: int)
      requires id in tokens
      reads this
    {
      Redeemable(id, secret, now) && !tokens[id].purpose.ResetPassword? && tokens[id].user in users
    }

    predicate Redeemable(id: int, secret: int, now: int)
      requires id in tokens
      reads this
    {
      tokens[id].secret == secret && tokens[id].used.None? && tokens[id].expires > now
    }

    /** `PreparePasswordResetEmail` for the user the identifier leads to; None covers every refusal. */
    method PreparePasswordResetEmail(user: int, secret: int, now: int) returns (r: Option<int>)
      requires Valid() && forall id :: id in tokens ==> tokens[id].secret != secret
      modifies this
      ensures Valid()
      ensures r.None? ==> Unchanged()
      ensures r.Some? <==> user in old(users) && old(users)[user].email.Some? && old(users)[user].verified.Some?
                           && !RecentlyIssued(old(tokens), user, ResetPassword, now)
      ensures r.Some? ==> users == old(users) && r.value !in old(tokens) && r.value in tokens && tokens[r.value].used.None?
                          && tokens[r.value].user == user && Some(tokens[r.value].target) == users[user].email
                          && tokens[r.value].expires == now + 1800 && tokens[r.value].created == now && tokens[r.value].secret == secret
                          && tokens[r.value].purpose == ResetPassword
                          && tokens - {r.value} == Invalidated(old(tokens), user, ResetPassword, now)
      ensures Step(old(Now()), AsksReset(user, secret, now), Now(), lower)
    {
      hide TokenInvariant, UniqueEmails;
      if user !in users || users[user].email.None? || users[user].verified.None? {
        return None;
      }
      if exists id :: id in tokens && tokens[id].user == user && tokens[id].purpose.ResetPassword? && now - tokens[id].created < 60 {
        return None;
      }
      var issued := Token(user, ResetPassword, users[user].email.value, secret, now + PASSWORD_RESET_LIFETIME, None, now);
      InvalidatedKeeps(tokens, nextID, redeemed, user, ResetPassword, now);
      var cleared := Invalidated(tokens, user, ResetPassword, now);
      IssueKeeps(cleared, nextID, redeemed, issued);
      r := Some(nextID);
      tokens := cleared[nextID := issued];
      nextID := nextID + 1;
      assert tokens - {r.value} == cleared;
    }

    /** The end every password change comes to: no session and no open reset token. */
    ghost predicate Locked(user: int)
      reads this
    {
      NoOpen(tokens, user, ResetPassword) && forall s :: s in sessions ==> sessions[s] != user
    }

    /** `ResetPasswordByEmail`. */
    method ResetPasswordByEmail(secret: int, password: string, now: int) returns (r: Result<int, Failure>)
      requires Valid()
      modifies this
      ensures Valid()
      ensures r.Err? ==> Unchanged()
      ensures r.Ok? <==> 6 <= |password| <= 72 && exists id :: id in old(tokens) && old(Redeemable(id, secret, now)) && old(OnTarget(id))
      ensures r.Ok? ==> r.value in old(tokens) && old(Redeemable(r.value, secret, now)) && old(OnTarget(r.value))
      ensures r.Ok? ==> r.value !in old(redeemed) && redeemed == old(redeemed)[r.value := 1]
      ensures r.Ok? ==>
                var user := old(tokens)[r.value].user;
                && users == old(users)[user := old(users)[user].(password := password)]
                && Locked(user) && sessions == SignedOut(old(sessions), user) && OnlyClosed(old(tokens), tokens)
                && requests == Superseded(old(requests), user)
      ensures Step(old(Now()), ResetsPassword(secret, password, now), Now(), lower)
    {
      hide TokenInvariant, ResetConsumed, ResetOnTarget, UniqueEmails, OnlyClosed, NoOpen, Superseded, Numbered;
      if !ValidPassword(password) {
        return Err(InvalidPassword);
      }
      if !exists id :: id in tokens && Redeemable(id, secret, now) && OnTarget(id) {
        return Err(ResetTokenInvalid);
      }
      var id :| id in tokens && Redeemable(id, secret, now) && OnTarget(id);
      ghost var before := Now();
      assert CanReset(before, id, secret, now);
      var user := tokens[id].user;
      ResetConsumedKeeps(tokens, nextID, redeemed, id, now);
      NewPasswordKeeps(users, tokens, ResetConsumed(tokens, id, now), user, password, lower);
      users := users[user := users[user].(password := password)];
      tokens := ResetConsumed(tokens, id, now);
      redeemed := redeemed[id := Redemptions(before, id) + 1];
      FewerNumbered(sessions, requests, nextID, user);
      sessions := SignedOut(sessions, user);
      requests := Superseded(requests, user);
      r := Ok(id);
      assert Now() == Reset(before, id, password, now);
    }

    /** The join of ResetPasswordByEmail: a reset token for its user's current verified address. */
    predicate OnTarget(id: int)
      requires id in tokens
      reads this
    {
      && tokens[id].purpose.ResetPassword? && tokens[id].user in users
      && users[tokens[id].user].verified.Some? && users[tokens[id].user].email == Some(tokens[id].target)
    }

    /** `createPasswordResetRequest`. */
    method CreatePasswordResetRequest(user: int, proposed: string) returns (r: Result<int, Failure>)
      requires Valid()
      modifies this
      ensures Valid() && users == old(users) && tokens == old(tokens) && sessions == old(sessions)
      ensures r.Err? ==> Unchanged()
      ensures r.Ok? <==> user in users && forall q :: q in old(requests) ==> !(old(requests)[q].user == user && old(requests)[q].status.Pending?)
      ensures r.Ok? ==> requests == old(requests)[r.value := Request(user, Some(proposed), Pending)]
      ensures Step(old(Now()), AsksReview(user, proposed), Now(), lower)
    {
      if user !in users {
        return Err(UserNotFound);
      }
      if exists q :: q in requests && requests[q].user == user && requests[q].status.Pending? {
        return Err(RequestPending);
      }
      r := Ok(nextID);
      requests := requests[nextID := Request(user, Some(proposed), Pending)];
      nextID := nextID + 1;
    }

    /** `ReviewPasswordChangeRequest`: approval changes the password and locks the account down. */
    method ReviewPasswordChangeRequest(id: int, admin: int, approve: bool, now: int) returns (failure: Option<Failure>)
      requires Valid()
      modifies this
      ensures Valid()
      ensures failure.Some? ==> Unchanged()
      ensures failure.None? <==> id in old(requests) && old(requests)[id].status.Pending? && old(requests)[id].user != admin
                                 && (approve ==> old(requests)[id].proposed.Some? && old(requests)[id].user in old(users))
      ensures failure.None? ==> requests == old(requests)[id := Request(old(requests)[id].user, None, if approve then Approved else Rejected)]
      ensures failure.None? && approve ==>
                var user := old(requests)[id].user;
                && users == old(users)[user := old(users)[user].(password := old(requests)[id].proposed.value)]
                && Locked(user) && sessions == SignedOut(old(sessions), user) && OnlyClosed(old(tokens), tokens)
      ensures failure.None? && !approve ==> users == old(users) && tokens == old(tokens) && sessions == old(sessions)
      ensures Step(old(Now()), Reviews(id, admin, approve, now), Now(), lower)
    {
      if id !in requests || !requests[id].status.Pending? {
        return Some(RequestNotFound);
      }
      var request := requests[id];
      if request.user == admin {
        return Some(SelfReview);
      }
      if approve {
        if request.proposed.None? || request.user !in users {
          return Some(RequestNotFound);
        }
        InvalidatedKeeps(tokens, nextID, redeemed, request.user, ResetPassword, now);
        hide TokenInvariant;
        users := users[request.user := users[request.user].(password := request.proposed.value)];
        sessions := SignedOut(sessions, request.user);
        tokens := Invalidated(tokens, request.user, ResetPassword, now);
      }
      requests := requests[id := Request(request.user, None, if approve then Approved else Rejected)];
      return None;
    }

    /** `ChangePassword`. */
    method ChangePassword(user: int, current: string, password: string, now: int) returns (failure: Option<Failure>)
      requires Valid()
      modifies this
      ensures Valid()
      ensures failure.Some? ==> Unchanged()
      ensures failure.None? <==> 6 <= |password| <= 72 && user in old(users) && old(users)[user].password == current && current != password
      ensures failure.None? ==> user in users && users == old(users)[user := old(users)[user].(password := password)] && Locked(user)
                                && sessions == SignedOut(old(sessions), user) && OnlyClosed(old(tokens), tokens) && requests == old(requests)
      ensures Step(old(Now()), ChangesPassword(user, current, password, now), Now(), lower)
    {
      if !ValidPassword(password) {
        return Some(InvalidPassword);
      }
      if user !in users {
        return Some(UserNotFound);
      }
      if users[user].password != current {
        return Some(InvalidCredentials);
      }
      if users[user].password == password {
        return Some(PasswordUnchanged);
      }
      InvalidatedKeeps(tokens, nextID, redeemed, user, ResetPassword, now);
      hide TokenInvariant;
      users := users[user := users[user].(password := password)];
      sessions := SignedOut(sessions, user);
      tokens := Invalidated(tokens, user, ResetPassword, now);
      return None;
    }

    /** Registration and sign-in, which only add rows. */
    method Register(user: int, password: string)
      requires Valid() && user !in users
      modifies `users
      ensures Valid() && users == old(users)[user := User(None, None, password)]
      ensures Step(old(Now()), Registers(user, password), Now(), lower)
    {
      users := users[user := User(None, None, password)];
    }

    method SignIn(user: int)
      requires Valid() && user in users
      modifies `sessions, `nextID
      ensures Valid() && sessions == old(sessions)[old(nextID) := user]
      ensures Step(old(Now()), SignsIn(user), Now(), lower)
    {
      sessions := sessions[nextID := user];
      nextID := nextID + 1;
    }

    /** One operation, if it can be asked for now. */
    method Do(o: Operation)
      requires Valid()
      modifies this
      ensures Valid() && Next(old(Now()), o, Now(), lower)
    {
      hide Step, TokenInvariant, ResetOnTarget, UniqueEmails;
      match o {
        case Registers(user, password) =>
          if user !in users {
            Register(user, password);
          }
        case SignsIn(user) =>
          if user in users {
            SignIn(user);
          }
        case AsksVerification(user, target, password, secret, now) =>
          if forall id :: id in tokens ==> tokens[id].secret != secret {
            var _ := PrepareEmailVerification(user, target, password, secret, now);
          }
        case Cancels(id, user, now) =>
          Cancel(id, user, now);
        case CancelsReset(id, user, now) =>
          CancelPasswordReset(id, user, now);
        case VerifiesEmail(secret, now) =>
          var _ := VerifyEmailToken(secret, now);
        case AsksReset(user, secret, now) =>
          if forall id :: id in tokens ==> tokens[id].secret != secret {
            var _ := PreparePasswordResetEmail(user, secret, now);
          }
        case ResetsPassword(secret, password, now) =>
          var _ := ResetPasswordByEmail(secret, password, now);
        case AsksReview(user, proposed) =>
          var _ := CreatePasswordResetRequest(user, proposed);
        case Reviews(id, admin, approve, now) =>
          var _ := ReviewPasswordChangeRequest(id, admin, approve, now);
        case ChangesPassword(user, current, password, now) =>
          var _ := ChangePassword(user, current, password, now);
      }
    }

    /** Any operations in any order, with any times and arguments, are a run. */
    method Run(operations: seq<Operation>) returns (ghost states: seq<View>)
      requires Valid()
      modifies this
      ensures Valid() && IsRun(states, operations, lower) && states[0] == old(Now()) && states[|operations|] == Now()
    {
      hide Next, TokenInvariant, ResetOnTarget, UniqueEmails;
      states := [Now()];
      for i := 0 to |operations|
        invariant Valid() && |states| == i + 1 && states[0] == old(Now()) && states[i] == Now()
        invariant forall j :: 0 <= j < i ==> Next(states[j], operations[j], states[j + 1], lower)
      {
        Do(operations[i]);
        states := states + [Now()];
      }
    }
  }

  // What each change of the tables is, row by row ---------------------------------------------------

  /** The user's unused tokens, for a reset or for an address as asked. */
  function Closing(tokens: Tokens, user: int, reset: bool): (ids: set<int>) {
    set id | id in tokens && tokens[id].user == user && tokens[id].used == None && (tokens[id].purpose == ResetPassword) == reset
  }

  /** The rows of `after` are those of `before`, closed at `now` where `closed` says so. */
  ghost predicate ClosedRows(before: Tokens, after: Tokens, closed: set<int>, now: int) {
    forall id :: (id in after <==> id in before)
                 && (id in after ==> after[id] == if id in closed then before[id].(used := Some(now)) else before[id])
  }

  /** Issuing closes the user's unused tokens of the same class, and no other row changes. */
  lemma IssuedExactly(v: View, t: Token)
    requires v.nextID !in v.tokens
    ensures Issued(v, t).users == v.users && Issued(v, t).sessions == v.sessions && Issued(v, t).requests == v.requests
    ensures v.nextID in Issued(v, t).tokens && Issued(v, t).tokens[v.nextID] == t
    ensures ClosedRows(v.tokens, Issued(v, t).tokens - {v.nextID}, Closing(v.tokens, t.user, t.purpose == ResetPassword), t.created)
  {
  }

  /** A new password: the user's sessions end and the user's unused reset tokens close, and nobody else's row
      and none of the user's other rows changes. */
  lemma LockedDownExactly(v: View, user: int, password: string, now: int)
    requires user in v.users
    ensures var w := LockedDown(v, user, password, now);
            && w.users == v.users[user := User(v.users[user].email, v.users[user].verified, password)] && w.requests == v.requests
            && (forall s :: s in w.sessions <==> s in v.sessions && v.sessions[s] != user)
            && (forall s :: s in w.sessions ==> w.sessions[s] == v.sessions[s])
            && ClosedRows(v.tokens, w.tokens, Closing(v.tokens, user, true), now)
  {
  }

  /** The same by a reset token, which is used up and counted; the user's pending requests go too. */
  lemma ResetExactly(v: View, id: int, secret: int, password: string, now: int)
    requires CanReset(v, id, secret, now)
    ensures var user, w := v.tokens[id].user, Reset(v, id, password, now);
            && w.users == v.users[user := User(v.users[user].email, v.users[user].verified, password)]
            && (forall s :: s in w.sessions <==> s in v.sessions && v.sessions[s] != user)
            && (forall s :: s in w.sessions ==> w.sessions[s] == v.sessions[s])
            && (forall q :: q in w.requests <==> q in v.requests && !(v.requests[q].user == user && v.requests[q].status == Pending))
            && (forall q :: q in w.requests ==> w.requests[q] == v.requests[q])
            && ClosedRows(v.tokens, w.tokens, Closing(v.tokens, user, true), now)
  {
  }

  /** Verification uses the token up, closes the user's other tokens for addresses, and the reset tokens when
      the address is another than before. */
  lemma VerifiedExactly(v: View, id: int, secret: int, now: int, lower: string -> string)
    requires CanVerify(v, id, secret, now, lower)
    ensures var t, w := v.tokens[id], Verified(v, id, now);
            && w.users == v.users[t.user := User(Some(t.target), Some(now), v.users[t.user].password)]
            && w.sessions == v.sessions && w.requests == v.requests
            && ClosedRows(v.tokens, w.tokens, Closing(v.tokens, t.user, false)
                          + (if v.users[t.user].email.Some? && v.users[t.user].email.value != t.target
                             then Closing(v.tokens, t.user, true) else {}), now)
  {
  }

  /** The user's rows are in every table what they were. */
  ghost predicate SameFor(v: View, w: View, user: int) {
    && (user in v.users <==> user in w.users) && (user in v.users ==> w.users[user] == v.users[user])
    && (forall id :: id in v.tokens && v.tokens[id].user == user ==> id in w.tokens && w.tokens[id] == v.tokens[id])
    && (forall id :: id in w.tokens && w.tokens[id].user == user ==> id in v.tokens)
    && (forall s :: s in v.sessions && v.sessions[s] == user ==> s in w.sessions && w.sessions[s] == user)
    && (forall s :: s in w.sessions && w.sessions[s] == user ==> s in v.sessions && v.sessions[s] == user)
    && (forall q :: q in v.requests && v.requests[q].user == user ==> q in w.requests && w.requests[q] == v.requests[q])
    && (forall q :: q in w.requests && w.requests[q].user == user ==> q in v.requests)
  }

  /** Nobody's rows but the actor's changed. */
  ghost predicate Private(v: View, w: View, actor: int) {
    forall user :: user != actor ==> SameFor(v, w, user)
  }

  lemma RowsPrivate(v: View, user: int, password: string)
    requires Numbered(v.sessions, v.requests, v.nextID) && forall id :: id in v.tokens ==> id < v.nextID
    ensures Private(v, v.(users := v.users[user := User(None, None, password)]), user)
    ensures Private(v, v.(sessions := v.sessions[v.nextID := user], nextID := v.nextID + 1), user)
  {
  }

  lemma AskedPrivate(v: View, request: Request)
    requires Numbered(v.sessions, v.requests, v.nextID)
    ensures Private(v, v.(requests := v.requests[v.nextID := request], nextID := v.nextID + 1), request.user)
  {
  }

  lemma IssuedPrivate(v: View, t: Token)
    requires v.nextID !in v.tokens
    ensures Private(v, Issued(v, t), t.user)
  {
  }

  lemma UsedPrivate(v: View, id: int, user: int, now: int)
    ensures Private(v, v.(tokens := UsedUp(v.tokens, id, user, now)), user)
  {
  }

  lemma LockedPrivate(v: View, user: int, password: string, now: int)
    requires user in v.users
    ensures Private(v, LockedDown(v, user, password, now), user)
  {
  }

  lemma ReviewedPrivate(v: View, id: int, approve: bool, now: int)
    requires id in v.requests && (approve ==> v.requests[id].proposed.Some? && v.requests[id].user in v.users)
    ensures Private(v, Reviewed(v, id, approve, now), v.requests[id].user)
  {
    if approve {
      LockedPrivate(v, v.requests[id].user, v.requests[id].proposed.value, now);
    }
    hide LockedDown;
    assert approve ==> LockedDown(v, v.requests[id].user, v.requests[id].proposed.value, now).requests == v.requests by {
      LockedKeepsRequests(v, id, approve, now);
    }
  }

  lemma LockedKeepsRequests(v: View, id: int, approve: bool, now: int)
    requires id in v.requests && (approve ==> v.requests[id].proposed.Some? && v.requests[id].user in v.users)
    ensures approve ==> LockedDown(v, v.requests[id].user, v.requests[id].proposed.value, now).requests == v.requests
  {
  }

  lemma ResetPrivate(v: View, id: int, secret: int, password: string, now: int)
    requires CanReset(v, id, secret, now)
    ensures Private(v, Reset(v, id, password, now), v.tokens[id].user)
  {
  }

  lemma VerifiedPrivate(v: View, id: int, secret: int, now: int, lower: string -> string)
    requires CanVerify(v, id, secret, now, lower)
    ensures Private(v, Verified(v, id, now), v.tokens[id].user)
  {
    hide Taken;
  }

  /** Every operation changes the rows of one user only. */
  lemma OneUserOnly(v: View, o: Operation, w: View, lower: string -> string) returns (actor: int)
    requires Sound(v, lower) && Next(v, o, w, lower)
    ensures Private(v, w, actor)
  {
    hide ResetOnTarget, UniqueEmails, OneOpen, Spaced, UniqueSecrets, RedeemedOnce, Taken, RecentlyIssued, ValidPassword, Redemptions,
      Private, Issued, UsedUp, LockedDown, Reviewed, Reset, Verified;
    actor := 0;
    Unchanged(v);
    if w != v {
      match o
      case Registers(user, password) =>
        actor := user;
        RowsPrivate(v, user, password);
      case SignsIn(user) =>
        actor := user;
        RowsPrivate(v, user, "");
      case AsksVerification(user, target, _, secret, now) =>
        actor := user;
        IssuedPrivate(v, Token(user, if v.users[user].email.Some? then ChangeEmail else VerifyEmail, target.value, secret,
                               now + EMAIL_VERIFICATION_LIFETIME, None, now));
      case Cancels(id, user, now) =>
        actor := user;
        UsedPrivate(v, id, user, now);
      case CancelsReset(id, user, now) =>
        actor := user;
        UsedPrivate(v, id, user, now);
      case VerifiesEmail(secret, now) =>
        var id :| CanVerify(v, id, secret, now, lower) && w == Verified(v, id, now);
        actor := v.tokens[id].user;
        VerifiedPrivate(v, id, secret, now, lower);
      case AsksReset(user, secret, now) =>
        actor := user;
        IssuedPrivate(v, Token(user, ResetPassword, v.users[user].email.value, secret, now + PASSWORD_RESET_LIFETIME, None, now));
      case ResetsPassword(secret, password, now) =>
        var id :| CanReset(v, id, secret, now) && w == Reset(v, id, password, now);
        actor := v.tokens[id].user;
        ResetPrivate(v, id, secret, password, now);
      case AsksReview(user, proposed) =>
        actor := user;
        AskedPrivate(v, Request(user, Some(proposed), Pending));
      case Reviews(id, _, approve, now) =>
        actor := v.requests[id].user;
        ReviewedPrivate(v, id, approve, now);
      case ChangesPassword(user, _, password, now) =>
        actor := user;
        LockedPrivate(v, user, password, now);
    }
  }

  lemma Unchanged(v: View)
    ensures forall actor :: Private(v, v, actor)
  {
  }

  // Whole runs --------------------------------------------------------------------------------------

  ghost predicate Sound(v: View, lower: string -> string) {
    && TokenInvariant(v.tokens, v.nextID, v.redeemed) && ResetOnTarget(v.users, v.tokens) && UniqueEmails(v.users, lower)
    && Numbered(v.sessions, v.requests, v.nextID)
  }

  ghost predicate Next(v: View, o: Operation, w: View, lower: string -> string) {
    if Enabled(v, o) then Step(v, o, w, lower) else w == v
  }

  ghost predicate IsRun(states: seq<View>, operations: seq<Operation>, lower: string -> string) {
    |states| == |operations| + 1 && forall i :: 0 <= i < |operations| ==> Next(states[i], operations[i], states[i + 1], lower)
  }

  /** `validatePassword`, on byte strings. */
  predicate ValidPassword(password: string) {
    6 <= |password| <= 72
  }

  /** Binding a free address: addresses stay unique and no reset token is left on an old address. */
  lemma NewAddressKeeps(users: Users, before: Tokens, after: Tokens, user: int, changed: User, lower: string -> string)
    requires user in users && changed.email.Some? && changed.verified.Some?
    requires UniqueEmails(users, lower) && !Taken(users, lower, changed.email.value, user)
    requires ResetOnTarget(users, before) && OnlyClosed(before, after)
    requires users[user].email.Some? && users[user].email != changed.email ==> NoOpen(after, user, ResetPassword)
    ensures UniqueEmails(users[user := changed], lower) && ResetOnTarget(users[user := changed], after)
  {
  }

  /** A new password touches no address. */
  lemma NewPasswordKeeps(users: Users, before: Tokens, after: Tokens, user: int, password: string, lower: string -> string)
    requires user in users && UniqueEmails(users, lower) && ResetOnTarget(users, before) && OnlyClosed(before, after)
    ensures var changed := users[user := users[user].(password := password)];
            UniqueEmails(changed, lower) && ResetOnTarget(changed, after)
  {
  }

  lemma GrownSound(v: View, lower: string -> string, user: int, password: string)
    requires Sound(v, lower)
    ensures Sound(v.(nextID := v.nextID + 1), lower)
    ensures Sound(v.(sessions := v.sessions[v.nextID := user], nextID := v.nextID + 1), lower)
    ensures user !in v.users ==> Sound(v.(users := v.users[user := User(None, None, password)]), lower)
  {
  }

  lemma AskedSound(v: View, lower: string -> string, request: Request)
    requires Sound(v, lower)
    ensures Sound(v.(requests := v.requests[v.nextID := request], nextID := v.nextID + 1), lower)
  {
  }

  /** An issue with no recent one before it. */
  lemma IssuedSound(v: View, t: Token, lower: string -> string)
    requires Sound(v, lower) && t.used.None? && !RecentlyIssued(v.tokens, t.user, t.purpose, t.created)
    requires forall id :: id in v.tokens ==> v.tokens[id].secret != t.secret
    requires t.purpose.ResetPassword? ==> t.user in v.users && v.users[t.user].email == Some(t.target) && v.users[t.user].verified.Some?
    ensures Sound(Issued(v, t), lower)
  {
    ClosedKeeps(v.tokens, v.nextID, v.redeemed, t.user, t.purpose, t.created);
    IssueKeeps(Invalidated(v.tokens, t.user, t.purpose, t.created), v.nextID, v.redeemed, t);
    hide TokenInvariant, UniqueEmails;
  }

  lemma ClosedSound(v: View, id: int, user: int, now: int, lower: string -> string)
    requires Sound(v, lower)
    ensures Sound(v.(tokens := UsedUp(v.tokens, id, user, now)), lower)
  {
    UsedUpKeeps(v.tokens, v.nextID, v.redeemed, id, user, now);
    hide TokenInvariant, UniqueEmails;
  }

  lemma VerifiedSound(v: View, id: int, secret: int, now: int, lower: string -> string)
    requires Sound(v, lower) && CanVerify(v, id, secret, now, lower)
    ensures Sound(Verified(v, id, now), lower)
  {
    hide TokenInvariant, ResetOnTarget, UniqueEmails, VerifyConsumed, NoOpen, OnlyClosed, Taken;
    var t := v.tokens[id];
    var current := v.users[t.user];
    var moved := current.email.Some? && current.email.value != t.target;
    VerifyConsumedKeeps(v.tokens, v.nextID, v.redeemed, id, now, moved);
    NewAddressKeeps(v.users, v.tokens, VerifyConsumed(v.tokens, id, now, moved), t.user,
                    current.(email := Some(t.target), verified := Some(now)), lower);
  }

  lemma ResetSound(v: View, id: int, secret: int, password: string, now: int, lower: string -> string)
    requires Sound(v, lower) && CanReset(v, id, secret, now)
    ensures Sound(Reset(v, id, password, now), lower)
  {
    hide TokenInvariant, ResetOnTarget, UniqueEmails, ResetConsumed, NoOpen, OnlyClosed;
    ResetConsumedKeeps(v.tokens, v.nextID, v.redeemed, id, now);
    NewPasswordKeeps(v.users, v.tokens, ResetConsumed(v.tokens, id, now), v.tokens[id].user, password, lower);
  }

  lemma LockedSound(v: View, user: int, password: string, now: int, lower: string -> string)
    requires Sound(v, lower) && user in v.users
    ensures Sound(LockedDown(v, user, password, now), lower)
  {
    hide TokenInvariant, ResetOnTarget, UniqueEmails, Invalidated, NoOpen, OnlyClosed;
    ClosedKeeps(v.tokens, v.nextID, v.redeemed, user, ResetPassword, now);
    NewPasswordKeeps(v.users, v.tokens, Invalidated(v.tokens, user, ResetPassword, now), user, password, lower);
  }

  lemma ReviewedSound(v: View, id: int, approve: bool, now: int, lower: string -> string)
    requires Sound(v, lower)
    requires id in v.requests && (approve ==> v.requests[id].proposed.Some? && v.requests[id].user in v.users)
    ensures Sound(Reviewed(v, id, approve, now), lower)
  {
    hide TokenInvariant, ResetOnTarget, UniqueEmails, Invalidated, SignedOut;
    if approve {
      LockedSound(v, v.requests[id].user, v.requests[id].proposed.value, now, lower);
    }
  }

  lemma NextSound(v: View, o: Operation, w: View, lower: string -> string)
    requires Sound(v, lower) && Next(v, o, w, lower)
    ensures Sound(w, lower)
  {
    hide TokenInvariant, ResetOnTarget, UniqueEmails, Issued, Verified, Reset, LockedDown, Reviewed, UsedUp, ValidPassword,
      Taken, RecentlyIssued;
    if Enabled(v, o) {
      match o
      case Registers(user, password) => GrownSound(v, lower, user, password);
      case SignsIn(user) => GrownSound(v, lower, user, "");
      case AsksVerification(user, target, _, secret, now) =>
        if w != v {
          NotRecent(v.tokens, user, now);
          IssuedSound(v, Token(user, if v.users[user].email.Some? then ChangeEmail else VerifyEmail, target.value, secret,
                               now + EMAIL_VERIFICATION_LIFETIME, None, now), lower);
        }
      case Cancels(id, user, now) => ClosedSound(v, id, user, now, lower);
      case CancelsReset(id, user, now) => ClosedSound(v, id, user, now, lower);
      case VerifiesEmail(secret, now) =>
        if w != v {
          var id :| CanVerify(v, id, secret, now, lower) && w == Verified(v, id, now);
          VerifiedSound(v, id, secret, now, lower);
        }
      case AsksReset(user, secret, now) =>
        if w != v {
          IssuedSound(v, Token(user, ResetPassword, v.users[user].email.value, secret, now + PASSWORD_RESET_LIFETIME, None, now), lower);
        }
      case ResetsPassword(secret, password, now) =>
        if w != v {
          var id :| CanReset(v, id, secret, now) && w == Reset(v, id, password, now);
          ResetSound(v, id, secret, password, now, lower);
        }
      case AsksReview(user, proposed) => AskedSound(v, lower, Request(user, Some(proposed), Pending));
      case Reviews(id, _, approve, now) =>
        if w != v {
          ReviewedSound(v, id, approve, now, lower);
        }
      case ChangesPassword(user, _, password, now) =>
        if w != v {
          LockedSound(v, user, password, now, lower);
        }
    }
  }

  lemma NotRecent(tokens: Tokens, user: int, now: int)
    ensures RecentlyIssued(tokens, user, ChangeEmail, now) <==> RecentlyIssued(tokens, user, VerifyEmail, now)
  {
  }

  /** No token comes back: what is used stays as it is. */
  lemma NextKeepsUsed(v: View, o: Operation, w: View, lower: string -> string, id: int)
    requires Sound(v, lower) && Next(v, o, w, lower) && id in v.tokens && v.tokens[id].used.Some?
    ensures id in w.tokens && w.tokens[id] == v.tokens[id]
  {
    hide ResetOnTarget, UniqueEmails, OneOpen, Spaced, UniqueSecrets, RedeemedOnce, Taken, RecentlyIssued, ValidPassword, SignedOut,
      Superseded, Redemptions;
  }

  lemma {:induction false} StaysSound(states: seq<View>, operations: seq<Operation>, lower: string -> string, i: nat)
    requires IsRun(states, operations, lower) && Sound(states[0], lower) && i <= |operations|
    ensures Sound(states[i], lower)
    decreases i
  {
    hide Sound, Next;
    if i > 0 {
      StaysSound(states, operations, lower, i - 1);
      NextSound(states[i - 1], operations[i - 1], states[i], lower);
    }
  }

  /** In every state of every run: one open token of a class and user at most, issues a minute apart, every
      token redeemed at most once, open reset tokens on the user's present verified address, addresses
      unique; and a token that is used by then is the same in every later state. */
  lemma {:induction false} TokensAreSafe(states: seq<View>, operations: seq<Operation>, lower: string -> string, i: nat, j: nat, id: int)
    requires IsRun(states, operations, lower) && Sound(states[0], lower) && i <= j <= |operations|
    ensures OneOpen(states[i].tokens) && Spaced(states[i].tokens) && ResetOnTarget(states[i].users, states[i].tokens)
    ensures UniqueEmails(states[i].users, lower) && (id in states[i].redeemed ==> states[i].redeemed[id] <= 1)
    ensures id in states[i].redeemed && id in states[i].tokens ==> states[i].tokens[id].used.Some?
    ensures id in states[i].tokens && states[i].tokens[id].used.Some? ==> id in states[j].tokens && states[j].tokens[id] == states[i].tokens[id]
    decreases j
  {
    hide OneOpen, Spaced, ResetOnTarget, UniqueEmails, UniqueSecrets, Next;
    StaysSound(states, operations, lower, i);
    if i < j {
      TokensAreSafe(states, operations, lower, i, j - 1, id);
      StaysSound(states, operations, lower, j - 1);
      if id in states[i].tokens && states[i].tokens[id].used.Some? {
        NextKeepsUsed(states[j - 1], operations[j - 1], states[j], lower, id);
      }
    }
  }
}
