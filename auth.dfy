/**
 * The registration and login protocol over an in-memory user table keyed
 * by e-mail. Password hashing and token signing are collaborators handed
 * in as functions (`Hasher`, `TokenCodec`); the environment's secret and
 * expiry are a `Config` value; the first foreign call that throws is a
 * `Fault` parameter.
 */
module Auth {
  import opened Common
  import opened EmailFormat

  type Email = string

  /** A stored user: `password` holds the hash, never the raw password. */
  datatype User = User(id: UserId, name: string, email: Email, password: string)

  /** The part of a user a response carries. */
  datatype PublicUser = PublicUser(id: UserId, name: string, email: Email)

  datatype AuthResponse = AuthResponse(
    success: bool,
    message: string,
    token: Option<string>,
    user: Option<PublicUser>)

  /** Request bodies; a field left out is the empty string (both are falsy). */
  datatype RegisterData = RegisterData(name: string, email: string, password: string)
  datatype LoginData = LoginData(email: string, password: string)

  /** `JWT_SECRET` and `JWT_EXPIRES_IN` from the environment. */
  datatype Config = Config(jwtSecret: Option<string>, jwtExpiresIn: Option<string>)

  /** The claim set a token carries: the user id, and the expiry it was signed with. */
  datatype Claims = Claims(id: UserId, expiresIn: string)

  /** `bcrypt.hash(password, salt)` and `bcrypt.compare(password, hash)`. */
  datatype Hasher = Hasher(hash: (string, string) -> string, compare: (string, string) -> bool)

  /** The one property of the hasher the protocol relies on. */
  ghost predicate SoundHasher(h: Hasher) {
    forall password, salt :: h.compare(password, h.hash(password, salt))
  }

  /**
   * `jwt.sign(claims, secret, ...)` and `jwt.verify(token, secret)`; `None`
   * stands for every error `jwt.verify` throws.
   */
  datatype TokenCodec = TokenCodec(sign: (Claims, string) -> string, verify: (string, string) -> Option<Claims>)

  /** A signed token decodes under its own secret and under no other. */
  ghost predicate SoundCodec(c: TokenCodec) {
    && (forall claims, secret :: c.verify(c.sign(claims, secret), secret) == Some(claims))
    && (forall claims, secret, other :: other != secret ==> c.verify(c.sign(claims, secret), other).None?)
  }

  /** The first foreign call that throws during one request, if any. */
  datatype Fault = NoFault | ReadFault | HashFault | WriteFault

  const MsgRequired := "Nome, email e senha são obrigatórios"
  const MsgInvalidEmail := "Email inválido"
  const MsgShortPassword := "Senha deve ter no mínimo 6 caracteres"
  const MsgEmailTaken := "Email já cadastrado"
  const MsgRegistered := "Usuário registrado com sucesso"
  const MsgRegisterError := "Erro ao registrar usuário"
  const MsgLoginRequired := "Email e senha são obrigatórios"
  const MsgBadCredentials := "Email ou senha inválidos"
  const MsgLoggedIn := "Login realizado com sucesso"
  const MsgLoginError := "Erro ao realizar login"
  const MsgNoSecret := "JWT_SECRET não está definida"

  /** The expiry used when `JWT_EXPIRES_IN` is unset or empty. */
  const DefaultExpiry := "7d"

  /** The minimum password length, in UTF-16 code units. */
  const MinPasswordLength := 6

  function Fail(message: string): (r: AuthResponse)
    ensures !r.success && r.message == message && r.token.None? && r.user.None?
  {
    AuthResponse(false, message, None, None)
  }

  function Project(u: User): (p: PublicUser)
    ensures p.id == u.id && p.name == u.name && p.email == u.email
  {
    PublicUser(u.id, u.name, u.email)
  }

  /**
   * JavaScript's `length` of a string: code points above U+FFFF take two
   * UTF-16 code units.
   */
  function Utf16Length(s: string): (n: nat)
    ensures |s| <= n <= 2 * |s|
  {
    if s == [] then 0 else (if s[0] as int > 0xFFFF then 2 else 1) + Utf16Length(s[1..])
  }

  /** A password of four letters and one emoji is six code units long. */
  lemma AstralCharacterCountsTwice()
    ensures Utf16Length("abcd\U{1F600}") == MinPasswordLength
  {
  }

  /** The validation chain of `register`, in order: the first failing check's message. */
  function RegisterCheck(data: RegisterData): (m: Option<string>)
    ensures m == Some(MsgRequired) <==> data.name == "" || data.email == "" || data.password == ""
    ensures m == Some(MsgInvalidEmail) <==>
              data.name != "" && data.email != "" && data.password != "" && !ValidEmail(data.email)
    ensures m == Some(MsgShortPassword) <==>
              data.name != "" && data.password != "" && ValidEmail(data.email)
              && Utf16Length(data.password) < MinPasswordLength
    ensures m.None? <==>
              data.name != "" && ValidEmail(data.email) && Utf16Length(data.password) >= MinPasswordLength
  {
    if data.name == "" || data.email == "" || data.password == "" then Some(MsgRequired)
    else if !ValidEmail(data.email) then Some(MsgInvalidEmail)
    else if Utf16Length(data.password) < MinPasswordLength then Some(MsgShortPassword)
    else None
  }

  /** The length check rejects only passwords shorter than six code units. */
  lemma SixUnitPasswordPasses(data: RegisterData)
    requires data.name != "" && ValidEmail(data.email)
    requires Utf16Length(data.password) == MinPasswordLength
    ensures RegisterCheck(data).None?
  {
  }

  /** The validation chain of `login`. */
  function LoginCheck(data: LoginData): (m: Option<string>)
    ensures m == Some(MsgLoginRequired) <==> data.email == "" || data.password == ""
    ensures m == Some(MsgInvalidEmail) <==> data.email != "" && data.password != "" && !ValidEmail(data.email)
    ensures m.None? <==> data.password != "" && ValidEmail(data.email)
  {
    if data.email == "" || data.password == "" then Some(MsgLoginRequired)
    else if !ValidEmail(data.email) then Some(MsgInvalidEmail)
    else None
  }

  /** `!secret`: an unset or empty `JWT_SECRET` counts as missing. */
  predicate HasSecret(config: Config) {
    config.jwtSecret.Some? && config.jwtSecret.value != ""
  }

  /** `process.env.JWT_EXPIRES_IN || '7d'` */
  function Expiry(config: Config): (e: string)
    ensures config.jwtExpiresIn.None? || config.jwtExpiresIn.value == "" ==> e == DefaultExpiry
    ensures config.jwtExpiresIn.Some? && config.jwtExpiresIn.value != "" ==> e == config.jwtExpiresIn.value
  {
    if config.jwtExpiresIn.Some? && config.jwtExpiresIn.value != "" then config.jwtExpiresIn.value
    else DefaultExpiry
  }

  class AuthService {
    /** The user table; the e-mail is the unique key. */
    var users: map<Email, User>
    /** The next user id to issue. */
    var nextId: nat
    const hasher: Hasher
    const codec: TokenCodec

    /** Every user sits under its own e-mail, with its own id below the counter. */
    ghost predicate Valid()
      reads this
    {
      && (forall e :: e in users ==> users[e].email == e && users[e].id < nextId)
      && (forall e, e' :: e in users && e' in users && e != e' ==> users[e].id != users[e'].id)
    }

    constructor (hasher: Hasher, codec: TokenCodec)
      ensures Valid()
      ensures users == map[] && nextId == 0
      ensures this.hasher == hasher && this.codec == codec
    {
      users := map[];
      nextId := 0;
      this.hasher := hasher;
      this.codec := codec;
    }

    /** `generateToken`: throws when the secret is missing, else signs the id with the expiry. */
    function GenerateToken(config: Config, userId: UserId): (r: Result<string>)
      ensures r.Failure? <==> !HasSecret(config)
      ensures r.Failure? ==> r.error == MsgNoSecret
    {
      if !HasSecret(config) then Failure(MsgNoSecret)
      else Success(codec.sign(Claims(userId, Expiry(config)), config.jwtSecret.value))
    }

    /** `verifyToken`: the decoded claims, or `null` for every failure, a missing secret included. */
    function VerifyToken(config: Config, token: string): (r: Option<Claims>)
      ensures !HasSecret(config) ==> r.None?
      ensures HasSecret(config) ==> r == codec.verify(token, config.jwtSecret.value)
    {
      if !HasSecret(config) then None else codec.verify(token, config.jwtSecret.value)
    }

    /** A token this service issued verifies to the id and expiry it was issued for. */
    lemma IssuedTokenVerifies(config: Config, userId: UserId)
      requires SoundCodec(codec) && HasSecret(config)
      ensures GenerateToken(config, userId).Success?
      ensures VerifyToken(config, GenerateToken(config, userId).value) == Some(Claims(userId, Expiry(config)))
    {
    }

    /** A token issued under one secret fails verification under any other secret. */
    lemma TokenBoundToSecret(config: Config, other: Config, userId: UserId)
      requires SoundCodec(codec) && HasSecret(config)
      requires other.jwtSecret != config.jwtSecret
      ensures VerifyToken(other, GenerateToken(config, userId).value).None?
    {
    }

    /**
     * `register`: the validation chain, then the uniqueness check, then one
     * insert of a user holding the hash of the password. Every failure
     * leaves the table as it was; a thrown fault becomes a generic failure.
     */
    method Register(data: RegisterData, salt: string, fault: Fault) returns (r: AuthResponse)
      requires Valid()
      modifies this
      ensures Valid()
      ensures !r.success ==> users == old(users) && nextId == old(nextId) && r.token.None? && r.user.None?
      ensures RegisterCheck(data).Some? ==> r == Fail(RegisterCheck(data).value)
      ensures RegisterCheck(data).None? && fault == ReadFault ==> r == Fail(MsgRegisterError)
      ensures RegisterCheck(data).None? && fault != ReadFault && data.email in old(users) ==>
                r == Fail(MsgEmailTaken)
      ensures (RegisterCheck(data).None? && (fault == HashFault || fault == WriteFault)
               && data.email !in old(users)) ==> r == Fail(MsgRegisterError)
      ensures r.success <==> RegisterCheck(data).None? && fault == NoFault && data.email !in old(users)
      ensures r.success ==>
                var u := User(old(nextId), data.name, data.email, hasher.hash(data.password, salt));
                && users == old(users)[data.email := u]
                && nextId == old(nextId) + 1
                && r == AuthResponse(true, MsgRegistered, None, Some(Project(u)))
    {
      var check := RegisterCheck(data);
      if check.Some? {
        return Fail(check.value);
      }
      if fault == ReadFault {
        return Fail(MsgRegisterError);
      }
      if data.email in users {
        return Fail(MsgEmailTaken);
      }
      if fault == HashFault || fault == WriteFault {
        return Fail(MsgRegisterError);
      }
      var hashed := hasher.hash(data.password, salt);
      var user := User(nextId, data.name, data.email, hashed);
      users := users[data.email := user];
      nextId := nextId + 1;
      r := AuthResponse(true, MsgRegistered, None, Some(Project(user)));
    }

    /**
     * `login`: the validation chain, the lookup, the password comparison
     * and the token. An unknown e-mail and a wrong password get the same
     * answer; a thrown fault, a missing secret included, becomes a generic
     * failure. The table is only read. Login writes nothing, so a
     * `WriteFault` has no call to strike and behaves as `NoFault`.
     */
    function Login(data: LoginData, config: Config, fault: Fault): (r: AuthResponse)
      reads this
      ensures LoginCheck(data).Some? ==> r == Fail(LoginCheck(data).value)
      ensures r.success <==>
                && LoginCheck(data).None? && fault !in {ReadFault, HashFault}
                && data.email in users && hasher.compare(data.password, users[data.email].password)
                && HasSecret(config)
      ensures r.success ==>
                && r.message == MsgLoggedIn
                && r.user == Some(Project(users[data.email]))
                && r.token == Some(GenerateToken(config, users[data.email].id).value)
      ensures !r.success ==> r.token.None? && r.user.None?
      ensures r.message == MsgBadCredentials <==>
                && LoginCheck(data).None? && fault != ReadFault
                && (data.email !in users
                    || (fault != HashFault && !hasher.compare(data.password, users[data.email].password)))
      ensures r.message == MsgLoginError <==>
                && LoginCheck(data).None?
                && (|| fault == ReadFault
                    || (data.email in users && fault == HashFault)
                    || (data.email in users && fault != HashFault
                        && hasher.compare(data.password, users[data.email].password) && !HasSecret(config)))
    {
      if LoginCheck(data).Some? then Fail(LoginCheck(data).value)
      else if fault == ReadFault then Fail(MsgLoginError)
      else if data.email !in users then Fail(MsgBadCredentials)
      else
        var user := users[data.email];
        if fault == HashFault then Fail(MsgLoginError)
        else if !hasher.compare(data.password, user.password) then Fail(MsgBadCredentials)
        else
          match GenerateToken(config, user.id)
          case Failure(_) => Fail(MsgLoginError)
          case Success(token) => AuthResponse(true, MsgLoggedIn, Some(token), Some(Project(user)))
    }

    /**
     * An unknown e-mail and a known e-mail with the wrong password get
     * byte-identical responses.
     */
    lemma LoginHidesWhichAccountsExist(unknown: LoginData, known: LoginData, config: Config, fault: Fault)
      requires LoginCheck(unknown).None? && LoginCheck(known).None?
      requires fault == NoFault || fault == WriteFault
      requires unknown.email !in users
      requires known.email in users && !hasher.compare(known.password, users[known.email].password)
      ensures Login(unknown, config, fault) == Login(known, config, fault)
      ensures Login(unknown, config, fault) == Fail(MsgBadCredentials)
    {
    }

    /**
     * When `bcrypt.compare` throws, the answers differ: an unknown e-mail
     * never reaches the comparison and gets the credentials message, while a
     * known e-mail gets the generic login error.
     */
    lemma CompareFaultRevealsKnownAccount(unknown: LoginData, known: LoginData, config: Config)
      requires LoginCheck(unknown).None? && LoginCheck(known).None?
      requires unknown.email !in users && known.email in users
      ensures Login(unknown, config, HashFault) == Fail(MsgBadCredentials)
      ensures Login(known, config, HashFault) == Fail(MsgLoginError)
    {
    }

    /**
     * After a successful registration, logging in with the same e-mail and
     * password succeeds, and its token verifies to the new user's id.
     */
    lemma LoginAfterRegister(data: RegisterData, salt: string, config: Config)
      requires Valid() && SoundHasher(hasher) && SoundCodec(codec)
      requires RegisterCheck(data).None? && HasSecret(config)
      requires data.email in users
      requires users[data.email].password == hasher.hash(data.password, salt)
      ensures Login(LoginData(data.email, data.password), config, NoFault).success
      ensures VerifyToken(config, Login(LoginData(data.email, data.password), config, NoFault).token.value)
           == Some(Claims(users[data.email].id, Expiry(config)))
    {
      IssuedTokenVerifies(config, users[data.email].id);
    }
  }

  /**
   * A client of the service: registering and then logging in with the
   * same credentials yields a token that verifies to the new user.
   */
  method RegisterThenLogin(s: AuthService, data: RegisterData, salt: string, config: Config)
    returns (registered: AuthResponse, loggedIn: AuthResponse)
    requires s.Valid() && SoundHasher(s.hasher) && SoundCodec(s.codec)
    requires RegisterCheck(data).None? && data.email !in s.users && HasSecret(config)
    modifies s
    ensures registered.success && loggedIn.success
    ensures registered.user.Some? && loggedIn.user == registered.user
    ensures loggedIn.token.Some?
    ensures s.VerifyToken(config, loggedIn.token.value) == Some(Claims(registered.user.value.id, Expiry(config)))
  {
    registered := s.Register(data, salt, NoFault);
    loggedIn := s.Login(LoginData(data.email, data.password), config, NoFault);
    s.LoginAfterRegister(data, salt, config);
  }

  /**
   * A client of the service: Ann registers, a wrong password is refused
   * with the generic message, and the right one logs her in.
   */
  method RegisterAndLoginAnn(s: AuthService, salt: string, config: Config)
    returns (registered: AuthResponse, wrong: AuthResponse, right: AuthResponse)
    requires s.Valid() && SoundHasher(s.hasher) && SoundCodec(s.codec) && HasSecret(config)
    requires "ann@x.com" !in s.users
    requires !s.hasher.compare("wrong1", s.hasher.hash("secret1", salt))
    modifies s
    ensures registered.success && registered.user.Some?
    ensures registered.user.value.name == "Ann" && registered.user.value.email == "ann@x.com"
    ensures wrong == Fail(MsgBadCredentials)
    ensures right.success && right.user == registered.user && right.token.Some?
  {
    var data := RegisterData("Ann", "ann@x.com", "secret1");
    PlainAddressIsValid();
    assert Utf16Length(data.password) >= |data.password| == 7;
    assert RegisterCheck(data).None?;
    registered := s.Register(data, salt, NoFault);
    assert s.users[data.email].password == s.hasher.hash(data.password, salt);
    var attempt := LoginData(data.email, "wrong1");
    assert LoginCheck(attempt).None?;
    wrong := s.Login(attempt, config, NoFault);
    right := s.Login(LoginData(data.email, data.password), config, NoFault);
    s.LoginAfterRegister(data, salt, config);
  }
}
