/**
 * `AuthRouter` (internal/api/routes/auth/authhandler/router.go): the three repositories
 * the handlers use, and the per-request inputs a handler reads besides its body.
 */
module AuthRouters {
  import opened Wrappers
  import opened Int64
  import opened Config
  import opened Model
  import opened Storage
  import opened Services
  import opened UserRepos
  import opened TokenRepos
  import opened LockoutRepos

  /**
   * What one request sees of the world: one clock reading, the peer address
   * (`r.RemoteAddr`) and the client address (`utils.GetClientIP(r)`), the random token
   * drawn for a mail (`None` when `crypto/rand` fails), whether the mail is sent, the
   * bcrypt hash of the submitted password (`None` when hashing fails), the snowflake id,
   * and the storage calls that fail.
   */
  datatype Env = Env(
    now: int64,
    remoteAddr: string,
    clientIp: string,
    random: Option<Token>,
    mailSent: bool,
    passwordHash: Option<string>,
    snowflakeId: int64,
    failing: set<StoreOp>
  )

  /** The contents of the three repositories. */
  datatype Store = Store(users: map<int64, User>, blacklist: set<JwtBlacklist>, events: seq<LockoutEvent>)

  /** The facts every handler keeps. */
  predicate StoreInvariant(s: Store) {
    && KeysMatchIds(s.users)
    && ConfirmedHasNoToken(s.users)
    && PermanentRevocations(s.blacklist)
    && LockoutsFollowFailures(s.events)
  }

  class AuthRouter {
    const userRepo: UserRepo
    const tokenRepo: TokenRepo
    const lockoutRepo: LockoutRepo
    const svc: Services

    /** `config.Init` refuses a JWT secret shorter than 32 bytes, so no router exists with one. */
    constructor (userRepo: UserRepo, tokenRepo: TokenRepo, lockoutRepo: LockoutRepo, svc: Services)
      requires SecretAccepted(svc.jwtSecret)
      ensures this.userRepo == userRepo && this.tokenRepo == tokenRepo
      ensures this.lockoutRepo == lockoutRepo && this.svc == svc
    {
      this.userRepo := userRepo;
      this.tokenRepo := tokenRepo;
      this.lockoutRepo := lockoutRepo;
      this.svc := svc;
    }

    ghost predicate Valid()
      reads this, userRepo
    {
      userRepo.Valid()
    }

    /** The contents of the repositories. */
    ghost function Snapshot(): Store
      reads this, userRepo, tokenRepo, lockoutRepo
    {
      Store(userRepo.users, tokenRepo.blacklist, lockoutRepo.events)
    }
  }
}
