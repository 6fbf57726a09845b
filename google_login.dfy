/** GoogleLoginCommandHandler: sign-in with a Google identity. A first sign-in creates the user
    and the user's wallet, a later one finds the user by Google id; either way a token is issued
    for the user. */
module GoogleLogin {
  import opened Common
  import opened Entities
  import opened Store
  import opened Ledger
  import opened Lookups

  /** What token validation returns for a valid Google token. */
  datatype GoogleUserInfo = GoogleUserInfo(googleId: string, email: string, name: string, pictureUrl: Option<string>)

  /** The claims of the issued JWT; `GenerateToken(userId, email)`. Signing is not modelled. */
  datatype AuthToken = AuthToken(userId: Guid, email: string)

  datatype AuthResult = AuthResult(token: AuthToken, userId: Guid, email: string, name: string)

  const InvalidGoogleToken: string := "Invalid Google token"

  /** The length of a generated wallet number. */
  const WalletNumberLength: nat := 13

  /** One decimal digit as a character. */
  function Digit(d: nat): (c: char)
    requires d < 10
    ensures '0' <= c <= '9'
    ensures (c as int) - ('0' as int) == d
  {
    (('0' as int) + d) as char
  }

  /** The value of a digit character. */
  function DigitValue(c: char): int {
    (c as int) - ('0' as int)
  }

  /** A random draw of `Random.Next(0, 10)` for each position. */
  predicate DigitDraws(draws: seq<nat>) {
    |draws| == WalletNumberLength && forall i :: 0 <= i < |draws| ==> draws[i] < 10
  }

  /** GenerateWalletNumber: the thirteen draws, written as digits and joined. */
  function GenerateWalletNumber(draws: seq<nat>): (n: string)
    requires DigitDraws(draws)
    ensures |n| == WalletNumberLength
    ensures forall i :: 0 <= i < |n| ==> '0' <= n[i] <= '9'
  {
    seq(WalletNumberLength, i requires 0 <= i < WalletNumberLength => Digit(draws[i]))
  }

  /** The wallet number spells out the draws, one digit each, and so different draws give
      different numbers. */
  lemma WalletNumberSpellsDraws(draws: seq<nat>, other: seq<nat>)
    requires DigitDraws(draws) && DigitDraws(other)
    ensures forall i :: 0 <= i < WalletNumberLength ==> DigitValue(GenerateWalletNumber(draws)[i]) == draws[i]
    ensures GenerateWalletNumber(draws) == GenerateWalletNumber(other) <==> draws == other
  {
    var n, m := GenerateWalletNumber(draws), GenerateWalletNumber(other);
    if n == m {
      forall i | 0 <= i < WalletNumberLength ensures draws[i] == other[i] {
        assert DigitValue(n[i]) == draws[i] && DigitValue(m[i]) == other[i];
      }
    }
  }

  function NewUser(info: GoogleUserInfo, now: Instant): User {
    User(info.googleId, info.email, info.name, info.pictureUrl, now)
  }

  function NewWallet(userId: Guid, number: string, now: Instant): Wallet {
    Wallet(number, 0, userId, 0, now)
  }

  /** The one save of a first sign-in: the user and the wallet, added together. */
  function SignUp(userId: Guid, user: User, walletId: Guid, wallet: Wallet): ChangeSet {
    ChangeSet(EmptyTables.(users := map[userId := user], wallets := map[walletId := wallet]), EmptyTables)
  }

  function Issue(userId: Guid, user: User): AuthResult {
    AuthResult(AuthToken(userId, user.email), userId, user.email, user.name)
  }

  /** The handler run on store state `t`. `info` is what token validation returned, `userId` and
      `walletId` are the Guids drawn for a new user and wallet, `draws` the digits drawn for the
      wallet number. */
  function Login(t: Tables, info: Option<GoogleUserInfo>, userId: Guid, walletId: Guid, draws: seq<nat>,
                 now: Instant, outage: bool): Outcome<AuthResult>
    requires UniqueGoogleIds(t.users)
    requires DigitDraws(draws)
  {
    if info.None? then Outcome(Err(UnauthorizedAccessException(InvalidGoogleToken)), t)
    else
      match UserByGoogleId(t.users, info.value.googleId)
      case Some(u) => Outcome(Ok(Issue(u, t.users[u])), t)
      case None =>
        var user := NewUser(info.value, now);
        var cs := SignUp(userId, user, walletId, NewWallet(userId, GenerateWalletNumber(draws), now));
        var err := SaveError(t, cs, outage);
        if err.Some? then Outcome(Err(err.value), t)
        else Outcome(Ok(Issue(userId, user)), Apply(t, cs))
  }

  /** GoogleLoginCommandHandler.Handle. */
  method Handle(db: Db, info: Option<GoogleUserInfo>, userId: Guid, walletId: Guid, draws: seq<nat>,
                now: Instant, outage: bool) returns (r: Result<AuthResult>)
    requires UniqueGoogleIds(db.users)
    requires DigitDraws(draws)
    modifies db
    ensures Outcome(r, db.Snapshot()) == Login(old(db.Snapshot()), info, userId, walletId, draws, now, outage)
  {
    if info.None? {
      return Err(UnauthorizedAccessException(InvalidGoogleToken));
    }
    var googleUserInfo := info.value;
    var found := UserByGoogleId(db.users, googleUserInfo.googleId);
    var id: Guid;
    var user: User;
    if found.Some? {
      id, user := found.value, db.users[found.value];
    } else {
      id, user := userId, NewUser(googleUserInfo, now);
      var wallet := NewWallet(id, GenerateWalletNumber(draws), now);
      var err := db.SaveChanges(SignUp(id, user, walletId, wallet), outage);
      if err.Some? {
        return Err(err.value);
      }
    }
    r := Ok(Issue(id, user));
  }

  /** A token that does not validate is refused and nothing is written. */
  lemma InvalidTokenIsRefused(t: Tables, userId: Guid, walletId: Guid, draws: seq<nat>, now: Instant, outage: bool)
    requires UniqueGoogleIds(t.users)
    requires DigitDraws(draws)
    ensures Login(t, None, userId, walletId, draws, now, outage) == Outcome(Err(UnauthorizedAccessException(InvalidGoogleToken)), t)
  {
  }

  /** A returning user: nothing is written, and the token and result are for the stored user with
      that Google id. */
  lemma ReturningUserAddsNothing(t: Tables, info: GoogleUserInfo, u: Guid, userId: Guid, walletId: Guid, draws: seq<nat>,
                                 now: Instant, outage: bool)
    requires UniqueGoogleIds(t.users)
    requires DigitDraws(draws)
    requires u in t.users && t.users[u].googleId == info.googleId
    ensures var o := Login(t, Some(info), userId, walletId, draws, now, outage);
            && o.tables == t
            && o.result == Ok(AuthResult(AuthToken(u, t.users[u].email), u, t.users[u].email, t.users[u].name))
  {
    UserByGoogleIdIsTheOnlyMatch(t.users, info.googleId, u);
  }

  /** The store after a first sign-in: one user and one wallet more. */
  predicate SignedUp(t: Tables, t': Tables, userId: Guid, user: User, walletId: Guid, wallet: Wallet) {
    && userId !in t.users && walletId !in t.wallets
    && t' == t.(users := t.users[userId := user], wallets := t.wallets[walletId := wallet])
  }

  lemma ApplySignUp(t: Tables, userId: Guid, user: User, walletId: Guid, wallet: Wallet)
    requires userId !in t.users && walletId !in t.wallets
    ensures SignedUp(t, Apply(t, SignUp(userId, user, walletId, wallet)), userId, user, walletId, wallet)
  {
    MergeOne(t.users, userId, user);
    assert Stamped(map[]) == map[];
    MergeOne(t.wallets, walletId, wallet);
    ApplyKeeps(t, SignUp(userId, user, walletId, wallet));
  }

  lemma SignUpSaved(t: Tables, cs: ChangeSet, userId: Guid, user: User, walletId: Guid, wallet: Wallet, outage: bool)
    requires cs == SignUp(userId, user, walletId, wallet)
    requires SaveError(t, cs, outage).None?
    ensures userId !in t.users && walletId !in t.wallets
    ensures Schema(Apply(t, cs))
  {
    assert FreshKeys(t, cs.inserted);
  }

  /** A first sign-in either fails and writes nothing, or adds exactly the new user, with the
      Google profile, and one wallet of that user with a zero balance and a thirteen-digit
      number; the result and the token are for the new user. */
  lemma NewUserGetsOneWallet(t: Tables, info: GoogleUserInfo, userId: Guid, walletId: Guid, draws: seq<nat>,
                            now: Instant, outage: bool)
    requires UniqueGoogleIds(t.users)
    requires DigitDraws(draws)
    requires forall u :: u in t.users ==> t.users[u].googleId != info.googleId
    ensures var o := Login(t, Some(info), userId, walletId, draws, now, outage);
            || (o.result.Err? && o.tables == t)
            || (&& o.result == Ok(AuthResult(AuthToken(userId, info.email), userId, info.email, info.name))
                && SignedUp(t, o.tables, userId, User(info.googleId, info.email, info.name, info.pictureUrl, now),
                            walletId, Wallet(GenerateWalletNumber(draws), 0, userId, 0, now))
                && Schema(o.tables))
  {
    var user := NewUser(info, now);
    var wallet := NewWallet(userId, GenerateWalletNumber(draws), now);
    var cs := SignUp(userId, user, walletId, wallet);
    if SaveError(t, cs, outage).None? {
      SignUpSaved(t, cs, userId, user, walletId, wallet, outage);
      ApplySignUp(t, userId, user, walletId, wallet);
    }
  }

  /** The handler does not look for a wallet with the same number: a generated number that is
      already taken is refused only by the unique index, and the whole sign-up fails. */
  lemma TakenNumberFailsSignUp(t: Tables, info: GoogleUserInfo, userId: Guid, walletId: Guid, draws: seq<nat>,
                               now: Instant, outage: bool, other: Guid)
    requires UniqueGoogleIds(t.users)
    requires DigitDraws(draws)
    requires forall u :: u in t.users ==> t.users[u].googleId != info.googleId
    requires other in t.wallets && t.wallets[other].walletNumber == GenerateWalletNumber(draws)
    ensures Login(t, Some(info), userId, walletId, draws, now, outage) == Outcome(Err(DbFailure), t)
  {
    var user := NewUser(info, now);
    var wallet := NewWallet(userId, GenerateWalletNumber(draws), now);
    var cs := SignUp(userId, user, walletId, wallet);
    SignUpRefused(t, cs, userId, user, walletId, wallet, outage, other);
    InsertOnlyFailure(t, cs, outage);
  }

  /** A sign-up whose wallet number is already held cannot be saved. */
  lemma SignUpRefused(t: Tables, cs: ChangeSet, userId: Guid, user: User, walletId: Guid, wallet: Wallet, outage: bool, other: Guid)
    requires cs == SignUp(userId, user, walletId, wallet)
    requires other in t.wallets && t.wallets[other].walletNumber == wallet.walletNumber
    ensures SaveError(t, cs, outage).Some?
  {
    if SaveError(t, cs, outage).None? {
      SignUpSaved(t, cs, userId, user, walletId, wallet, outage);
      ApplySignUp(t, userId, user, walletId, wallet);
      NumberTakenTwice(Apply(t, cs), walletId, other);
    }
  }

  lemma NumberTakenTwice(t: Tables, a: Guid, b: Guid)
    requires a in t.wallets && b in t.wallets && a != b
    requires t.wallets[a].walletNumber == t.wallets[b].walletNumber
    ensures !Schema(t)
  {
    assert !UniqueWalletNumbers(t.wallets);
  }

  /** Sign-in keeps the books consistent: the only rows it adds are a user and an empty wallet
      that no entry refers to. */
  lemma LoginPreservesConsistency(t: Tables, info: Option<GoogleUserInfo>, userId: Guid, walletId: Guid, draws: seq<nat>,
                                  now: Instant, outage: bool)
    requires Consistent(t)
    requires DigitDraws(draws)
    ensures Consistent(Login(t, info, userId, walletId, draws, now, outage).tables)
  {
    if info.Some? && UserByGoogleId(t.users, info.value.googleId).None? {
      NewUserGetsOneWallet(t, info.value, userId, walletId, draws, now, outage);
      var o := Login(t, info, userId, walletId, draws, now, outage);
      if o.tables != t {
        SignUpKeepsConsistency(t, o.tables, userId, NewUser(info.value, now), walletId, NewWallet(userId, GenerateWalletNumber(draws), now));
      }
    }
  }

  lemma SignUpKeepsConsistency(t: Tables, t': Tables, userId: Guid, user: User, walletId: Guid, wallet: Wallet)
    requires Consistent(t) && Schema(t')
    requires SignedUp(t, t', userId, user, walletId, wallet)
    requires wallet.balance == 0
    ensures Consistent(t')
  {
    assert t'.transactions == t.transactions && t'.transfers == t.transfers;
    assert t'.wallets == t.wallets[walletId := wallet];
    NewWalletKeepsBalancesMatched(t, t', walletId, wallet);
    SameLedgerKeepsLegsLinked(t, t');
  }

  lemma NewWalletKeepsBalancesMatched(t: Tables, t': Tables, walletId: Guid, wallet: Wallet)
    requires Schema(t) && BalancesMatchLedger(t)
    requires walletId !in t.wallets && wallet.balance == 0
    requires t'.transactions == t.transactions && t'.wallets == t.wallets[walletId := wallet]
    ensures BalancesMatchLedger(t')
  {
    assert forall id :: id in t.transactions ==> t.transactions[id].walletId != walletId;
    LedgerNetOfUnusedWallet(t.transactions, walletId);
  }

  lemma SameLedgerKeepsLegsLinked(t: Tables, t': Tables)
    requires LegsLinked(t)
    requires t'.transactions == t.transactions && t'.transfers == t.transfers
    ensures LegsLinked(t')
  {
    assert forall id :: IsLeg(t', id) == IsLeg(t, id);
  }
}
