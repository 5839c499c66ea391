# Todo API core: authentication and ownership-scoped todos

This project models, in Dafny, the two services at the core of a personal
todo-list backend:

- **the todo service** (`Todos`, from `src/services/todoService.ts`): a
  table of todo records keyed by id, with create, filtered listing, get by
  id, full replace, partial update and remove. Every operation on an
  existing id goes through one gate: lookup, then not found (`null` in the
  source) for an unknown id, then forbidden (`Error('FORBIDDEN')` with
  `code = 403` in the source) for a record of another user, then the
  operation itself. The model is a class `TodoService` holding the table
  as a `map<TodoId, Todo>` and an id counter, with one method per
  operation. The service's two answers besides a value become the
  `Outcome` datatype `Ok(value) | NotFound | Forbidden`.
- **the authentication service** (`Auth`, from
  `src/services/authService.ts`): registration with an ordered validation
  chain, a uniqueness check and one insert of a hashed password; login that
  answers the same message for an unknown e-mail and a wrong password and
  issues a signed token; token generation and verification. The model is
  a class `AuthService` holding the user table as a `map<Email, User>`.
  Registration is a method that changes the table; login, token
  generation and verification are functions that only read it.
- **the e-mail check** (`EmailFormat`), the regular expression both
  registration and login apply. It is modelled as a hand-written
  recogniser, `ValidEmail`. A second, term-by-term reading of the pattern,
  `EmailPattern`, is proved to accept exactly the same strings.

Foreign collaborators appear as parameters:

- `bcrypt.hash`/`bcrypt.compare` are the two functions of a `Hasher` value.
  The one property assumed of them is `compare(p, hash(p, salt))`
  (`SoundHasher`). The random salt of `bcrypt.genSalt(10)` is a parameter of
  `Register`.
- `jwt.sign`/`jwt.verify` are the two functions of a `TokenCodec` value. A
  token verifies under the secret it was signed with, to the claims it was
  signed with, and under no other secret (`SoundCodec`).
- `process.env.JWT_SECRET` and `process.env.JWT_EXPIRES_IN` are a `Config`
  value passed to each call that reads them.
- An exception thrown by the store or the hasher is a `Fault` parameter
  naming the first foreign call that throws.
- `new Date(...)` is abstracted. A date-like field is a `DateInput`:
  left out, `null`, the empty string, or a truthy value with its timestamp.
  JavaScript truthiness decides the branches, as in the source.

Store-issued ids are natural numbers from a counter. A todo's
`createdAt` equals its id, so the counter stands in for the creation
clock and no two todos share a stamp. A todo id supplied by a caller that
the store never issued is an id that is not in the table.

Behaviour of the source worth knowing:

- `verifyToken` catches the error it throws itself when the secret is
  missing, so it answers `null` (`None`) and never raises a configuration
  fault (`src/services/authService.ts:184-196`).
- `create` and `replace` do not check that the title is non-empty; they
  copy it verbatim (`src/services/todoService.ts:43`, `:111`).
- `replace` passes title, completed and priority to the store with no
  default (`src/services/todoService.ts:111`, `:113-114`). Its request type
  requires them, but types are erased at run time, so an omitted one reaches
  the store as `undefined`, which leaves that column unchanged. The model
  makes these three fields optional in `UpdateTodoDto` and keeps the stored
  value when one is left out. Description and due date, by contrast, are
  always rewritten (to `''` and `null` when left out).

## Model

| member | source | states |
|---|---|---|
| `Todos.NewTodo` | src/services/todoService.ts:37-48 | the created record is owned by the caller; title copied; description is the input or `''`; dueDate is null exactly when the input is falsy, else its timestamp; completed only if the input is `true`; priority is the input or `medium` |
| `Todos.DateInput.ToDate` | src/services/todoService.ts:38 | `value ? new Date(value) : null`: a date exactly for a truthy input, carrying its timestamp |
| `Todos.TodoService.Create` | src/services/todoService.ts:37-53 | inserts exactly the defaulted record under a fresh id; every other record is unchanged; the invariant is kept |
| `Todos.BuildWhere` | src/services/todoService.ts:56-76 | the filter object built step by step admits a todo exactly when the caller owns it, `completed` matches when the query text is exactly `'true'` or `'false'`, a given priority matches, a non-empty title is a case-insensitive substring, and each given date bound holds |
| `Todos.TodoService.FindMany` | src/services/todoService.ts:78-81 | returns exactly the stored records the filter matches, each as stored, strictly newest first |
| `Todos.TodoService.List` | src/services/todoService.ts:55-84 | returns exactly the caller's todos that pass the query (sound and complete), each as stored, ordered by `createdAt` descending |
| `Todos.TodoService.GetById` | src/services/todoService.ts:86-96 | not found exactly when the id is absent; forbidden exactly when the record exists with another owner (never not found then); otherwise the stored record unchanged; reads only |
| `Todos.Overwrite` | src/services/todoService.ts:108-117 | title, completed and priority come from the input when given and keep their stored value when left out; description is the input or `''`; dueDate is null when the input is falsy; id, owner and createdAt are kept |
| `Todos.TodoService.Replace` | src/services/todoService.ts:98-120 | not found for a missing id and forbidden for a foreign owner, both with the table unchanged; otherwise only that record changes, to the overwrite |
| `Todos.Merge` | src/services/todoService.ts:132-141 | every field left out keeps its stored value; a given field replaces it; for `dueDate`, left out keeps, `null` or `''` clears, a truthy value sets; id, owner and createdAt are kept |
| `Todos.TodoService.UpdatePartial` | src/services/todoService.ts:122-144 | not found and forbidden as for replace, with the table unchanged; otherwise only that record changes, to the merge |
| `Todos.MergeEmptyIsIdentity` | src/services/todoService.ts:135-139 | a partial update with no fields leaves the record equal to the stored one |
| `Todos.MergeIdempotent` | src/services/todoService.ts:132-141 | applying the same partial update twice gives the same record as applying it once |
| `Todos.ReplaceIsFullMerge` | src/services/todoService.ts:108-117 | a replace equals a partial update that always supplies description (default `''`) and due date (default `null`) and supplies title, completed and priority exactly when the body does |
| `Todos.FullReplaceForgetsOldRecord` | src/services/todoService.ts:108-117 | a replace whose body carries title, completed and priority gives the same record whatever the old record held beyond its id, owner and creation stamp |
| `Todos.CreateIsReplaceWithDefaults` | src/services/todoService.ts:38-48 | the created record equals a replace of a fresh record with `completed` defaulted to `false` and priority to `medium` |
| `Todos.TodoService.Remove` | src/services/todoService.ts:146-158 | not found and forbidden as for replace, with the table unchanged; otherwise the id is gone, every other record is unchanged, and the answer is `true` |
| `Todos.EmptyUpdateChangesNothing` | src/services/todoService.ts:122-144 | an empty partial update by the owner answers the stored record and leaves the whole table as it was |
| `Todos.CreateThenGetById` | src/services/todoService.ts:37-96 | a todo created with only a title keeps the title, is not completed, has priority `medium`, description `''` and no due date; its owner reads it back as created and every other user is forbidden |
| `EmailFormat.ValidEmail` | src/services/authService.ts:57-58 | the e-mail test `emailRegex.test(email)` of registration and login (also :129-130): a non-empty local part of word characters with guarded `.`/`-` separators, one `@`, and a domain that ends in a dot and two or three word characters; its meaning is fixed by `ValidEmailIsPattern` |
| `EmailFormat.ValidEmailIsPattern` | src/services/authService.ts:57-58 | the recogniser accepts a string exactly when the anchored pattern `^\w+([\.-]?\w+)*@\w+([\.-]?\w+)*(\.\w{2,3})+$` matches it |
| `EmailFormat.PlainAddressIsValid` | src/services/authService.ts:57 | `ann@x.com` passes the e-mail check |
| `EmailFormat.BareDomainIsInvalid` | src/services/authService.ts:57 | `ann@x` fails the e-mail check: the domain needs a final dot and two or three word characters |
| `Auth.Utf16Length` | src/services/authService.ts:67 | `password.length` counts UTF-16 code units: at least one per character and at most two |
| `Auth.AstralCharacterCountsTwice` | src/services/authService.ts:67 | four letters and one emoji count as six, enough to pass the check |
| `Auth.RegisterCheck` | src/services/authService.ts:48-73 | the checks in order, each message exactly when the earlier checks pass and its own fails: an empty field gives the required-fields message, then an invalid e-mail, then a password shorter than 6; none fails exactly when the name is non-empty, the e-mail valid and the password at least 6 long |
| `Auth.SixUnitPasswordPasses` | src/services/authService.ts:67 | a password of length exactly 6 passes, because only lengths below 6 are rejected |
| `Auth.AuthService.Register` | src/services/authService.ts:41-113 | a validation failure, a lookup fault, an existing e-mail (`'Email já cadastrado'`) and a hash or insert fault (`'Erro ao registrar usuário'`) each fail with their message and no change to the table; success happens exactly when all checks pass with no fault, and inserts exactly one user holding `hash(password, salt)` under a fresh id; the response carries only `{id, name, email}` and no token |
| `Auth.LoginCheck` | src/services/authService.ts:120-136 | empty e-mail or password gives `'Email e senha são obrigatórios'`, then an invalid e-mail gives `'Email inválido'`; none fails exactly when the password is non-empty and the e-mail valid |
| `Auth.HasSecret` | src/services/authService.ts:31 | the `!secret` test (also :188): an unset or empty `JWT_SECRET` counts as missing |
| `Auth.Expiry` | src/services/authService.ts:37 | the token expiry is `JWT_EXPIRES_IN` when it is set and non-empty, else `'7d'` |
| `Auth.AuthService.GenerateToken` | src/services/authService.ts:28-39 | fails with `'JWT_SECRET não está definida'` exactly when the secret is unset or empty |
| `Auth.AuthService.VerifyToken` | src/services/authService.ts:184-196 | a missing secret gives `null`; with a secret the answer is exactly what `jwt.verify` decodes under it, `null` for every failure, never an exception; the table is not read |
| `Auth.AuthService.IssuedTokenVerifies` | src/services/authService.ts:28-39 | a token this service issues verifies to the user id and expiry it was issued for |
| `Auth.AuthService.TokenBoundToSecret` | src/services/authService.ts:184-196 | a token issued under one secret fails verification under a different secret |
| `Auth.AuthService.Login` | src/services/authService.ts:115-182 | succeeds exactly when the checks pass, no fault occurs, the e-mail is known, the password compares and the secret is present; on success it carries `generateToken(user.id)` and `{id, name, email}`; `'Email ou senha inválidos'` comes back exactly for an unknown e-mail or a failed comparison; `'Erro ao realizar login'` exactly for a thrown fault or a missing secret; the table is only read |
| `Auth.AuthService.LoginHidesWhichAccountsExist` | src/services/authService.ts:141-158 | when no store or hash call throws, an unknown e-mail and a known e-mail with a wrong password get byte-identical responses |
| `Auth.AuthService.CompareFaultRevealsKnownAccount` | src/services/authService.ts:141-181 | when `bcrypt.compare` throws, an unknown e-mail still gets `'Email ou senha inválidos'` (the comparison is never reached) while a known e-mail gets `'Erro ao realizar login'` |
| `Auth.AuthService.LoginAfterRegister` | src/services/authService.ts:86-91 | after a user is stored with the hash of a password, login with that password succeeds and its token verifies to the user's id |
| `Auth.RegisterAndLoginAnn` | src/services/authService.ts:41-182 | registering `Ann`, `ann@x.com`, `secret1` succeeds with that name and e-mail; a login with a password that does not compare is refused with `'Email ou senha inválidos'`; a login with `secret1` succeeds for the same user with a token |
| `Auth.RegisterThenLogin` | src/services/authService.ts:41-182 | registering and then logging in with the same credentials succeeds both times, with the same user, and the token verifies to it |

## Left out

- Request routing, body parsing, CORS, logging middleware and the HTTP error handlers (`api/index.ts`) are transport and are not part of this model.
- The Prisma client, connecting, disconnecting and process exit (`src/database/connection.ts`) are replaced by the in-memory tables. `src/models/Todo.ts` and `src/models/User.ts` only re-export types; their shapes are the datatypes `Todo` and `User`.
- The Prisma schema is not part of this model. Todo fields are those the service code reads and writes; columns the store maintains on its own (an update time, say) are not modelled.
- Store or runtime faults in the todo service are not caught by the source: they propagate to the caller. The model's todo operations always reach the store successfully.
- bcrypt salting, cost factor 10 and hashing internals, and JWT cryptography are abstract: only `SoundHasher` and `SoundCodec` are assumed of them.
- Clock-based token expiry is not modelled: the model checks a token's signature and secret, not its age. `jwt.sign` rejecting a malformed `JWT_EXPIRES_IN` is not modelled either.
- `new Date(...)` parsing is abstracted into a `DateInput`'s timestamp. A string that parses to an invalid date, which the store would reject, is not modelled.
- Case-insensitive title matching folds ASCII letters only (`Lower`). The database collation's full Unicode case folding is not modelled.
- `console.log`/`console.error` output, the async/await machinery and the store's serialisation of concurrent writes are not modelled: every operation runs to completion on its own.
- Request fields of the wrong JavaScript type (a number for a name, an array for a query parameter) are not modelled. A missing string field of a registration or login body is the empty string, which the source treats the same way.
- A `null` title, description, completed or priority sent to `updatePartial` is not modelled: the source passes it to the store, whose schema is not part of this model. Left-out fields (`undefined`) are modelled.
- Running time of the e-mail test is not modelled: the pattern nests `\w+` inside `(…\w+)*` (`src/services/authService.ts:57`, `:129`), so a backtracking regular-expression engine may take exponential time on a long run of word characters with no `@`, before any store access. The model treats the test as a predicate that always answers.
