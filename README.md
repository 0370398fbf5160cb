# Coffee-shop API bearer-token authorization, modelled in Dafny

The coffee-shop backend guards its drink routes with `requires_auth(permission)`
from `backend/src/auth/auth.py`. This project models that authorization pipeline
and proves properties of it:

- **Header parsing** (`get_token_auth_header`). It takes the `Authorization`
  header and yields the bearer token. Python's `str.split()` is modelled as
  `PyStr.Words`, and the project proves it is exactly the inverse of laying
  words out with whitespace (`PyStr.Layout`). Python's `str.lower()` is
  `PyStr.Lower`.
- **Permission check** (`check_permissions`). It runs Python's `in` on the
  `permissions` claim. A list tests element equality, a string tests for a
  substring, an object tests its keys, and a scalar raises TypeError.
- **Key selection and error mapping** (`verify_decode_jwt`). The token's `kid`
  header parameter (section 4.1.4 of RFC 7515) selects a key of the JWK Set
  (section 5 of RFC 7517), and the last match wins. The outcome of RS256
  decoding (section 3.3 of RFC 7518) and of the `exp`/`iss`/`aud` checks
  (sections 4.1.4, 4.1.1 and 4.1.3 of RFC 7519) becomes the source's error
  codes. The loop is the method `Auth.VerifyDecodeJwt`, proved equal to the
  function `Auth.Verification`.
- **The gate** (`requires_auth`). `AuthGate.RequiresAuth` returns the response
  and the list of stages that ran, so that the order of the stages and the
  single run of the handler can be stated.

Each call ends in an `Outcome`: `Ok(value)`, `Fail(AuthError)` for a raised
`AuthError` with its exact code, description and status, or `Crash(Fault)` for
an exception the source does not catch. Inputs the model cannot compute are
parameters, bundled in `Auth.Jose`:

- the key-set document as fetched and parsed, and whether its `keys` entry
  can be read;
- the result of `jwt.get_unverified_header`;
- the result of `jwt.decode` for a given token, key and decode options.

Behaviour of the source that the model keeps as written:

- The scheme error and the too-many-parts error have the code `Invalid_header`,
  with a capital I. The missing-header description reads
  "Auhtorization header is expected".
- A header of whitespace only passes the missing-header test, because a
  non-empty string is truthy. It splits to an empty list, and `parts[0]`
  raises IndexError, so the model gives `Crash(EmptySplit)`. The gate passes
  this on as a server error.
- A failed key-set fetch or parse raises inside `verify_decode_jwt`. The
  exception is not an `AuthError`; the gate's bare `except:` turns it into
  `abort(401)`.
- The token's `kid` is tested before the key set's `keys` entry is read.
  A token without a `kid` therefore gets "Authorization malformed." even when
  that entry is missing.
- The `permissions` claim is whatever JSON value the token carries, and the
  test is Python's `in` on it. On a string claim `in` is a substring test.
- The default permission is `''`. For a list claim, `'' in permissions` holds
  only when the list contains the empty string, so other tokens are refused
  with 403 (`Auth.DefaultPermissionRefused`).

## Model

| member | source | states |
|---|---|---|
| `PyStr.WordLength` | backend/src/auth/auth.py:34 | the length of the longest whitespace-free prefix: every character before it is non-whitespace, and the one at it is whitespace or the end |
| `PyStr.Words` | backend/src/auth/auth.py:34 | the split is empty exactly when the string is all whitespace |
| `PyStr.WordsAreWords` | backend/src/auth/auth.py:34 | every piece of `str.split()` is non-empty and whitespace-free |
| `PyStr.WordsOfLayout` | backend/src/auth/auth.py:34 | words laid out with whitespace gaps (inner gaps non-empty) split back into exactly those words |
| `PyStr.SplitLayout` | backend/src/auth/auth.py:34 | every string is its own split laid out with its own whitespace, so the split is the inverse of the layout |
| `PyStr.LowerIsBearer` | backend/src/auth/auth.py:36 | `w.lower() == "bearer"` holds exactly for the upper/lower-case spellings of "Bearer" |
| `Auth.GetTokenAuthHeader` | backend/src/auth/auth.py:25-55 | the header is reported missing exactly when it is absent or empty; a returned token is one whitespace-free word; every raised error is one of the four header errors, with status 401; an uncaught IndexError happens exactly for a non-empty, all-whitespace header |
| `Auth.HeaderOfLayout` | backend/src/auth/auth.py:34-55 | for any header made of words and whitespace: a non-bearer first word gives `Invalid_header` whatever the word count; then one word gives "Token not found", more than two give "It must be a bearer token", and exactly two give back the second word unchanged |
| `Auth.HeaderAccepted` | backend/src/auth/auth.py:34-55 | a header is accepted only if it splits into exactly a bearer scheme and the returned token, with whitespace around and between them |
| `Auth.SchemeAloneNotBearer` | backend/src/auth/auth.py:36-41 | `"Basic"` fails the scheme test |
| `Auth.SchemeCheckedFirst` | backend/src/auth/auth.py:36-53 | `"Basic a b"` fails the scheme test, not the part-count test |
| `Auth.BearerWithoutToken` | backend/src/auth/auth.py:42-47 | `"Bearer"` alone gives `invalid_header`, "Token not found", 401 |
| `Auth.BearerWithTwoTokens` | backend/src/auth/auth.py:48-53 | `"Bearer a b"` gives `Invalid_header`, "It must be a bearer token", 401 |
| `Auth.BearerMixedCase` | backend/src/auth/auth.py:34-55 | the scheme is matched without regard to case, and surrounding whitespace is ignored |
| `Auth.BlankHeaderCrashes` | backend/src/auth/auth.py:26-36 | a whitespace-only header passes the missing-header test and ends in IndexError |
| `Auth.CheckPermissions` | backend/src/auth/auth.py:57-69 | success is always `true` and needs a `permissions` claim; a missing claim is exactly `invalid_claims`/400 whatever the permission; every raised error is a permission error |
| `Auth.PermissionList` | backend/src/auth/auth.py:63-69 | for a list of strings, the check succeeds exactly when the permission is an element, and otherwise gives `unauthorized`/403 |
| `Auth.DefaultPermissionRefused` | backend/src/auth/auth.py:129-138 | with the default permission `''`, a token whose permission list lacks the empty string is refused with 403 |
| `Auth.LastMatch` | backend/src/auth/auth.py:86-94 | the chosen position holds a key whose `kid` equals the token's and no later key matches; none is chosen only when no key matches |
| `Auth.SelectKey` | backend/src/auth/auth.py:86-94 | the selected key's `kid` equals the token's; "no key" happens exactly when every key is readable and none matches |
| `Auth.SelectUnique` | backend/src/auth/auth.py:86-94 | when exactly one key carries the `kid`, that key is selected |
| `Auth.SelectLater` | backend/src/auth/auth.py:86-94 | of two keys with the same `kid`, the later one is selected |
| `Auth.Classify` | backend/src/auth/auth.py:95-122 | decoding succeeds exactly when the library returns a payload, which is returned unchanged; an expired signature gives exactly `token_expired`/401, rejected claims exactly `invalid_claims`/401 with "Incorrect claims", and any other decode exception exactly `invalid_header`/400 with "Unable to parse authentication token." |
| `Auth.Verification` | backend/src/auth/auth.py:71-126 | every error verification raises is one of the five verifier errors |
| `Auth.VerificationAccepts` | backend/src/auth/auth.py:78-105 | a token verifies only when its header has a `kid`, every key is readable, and the library decodes it with the last key carrying that `kid`; the result is that payload |
| `Auth.VerificationDecodes` | backend/src/auth/auth.py:86-122 | once the last key carrying the token's `kid` is selected, the result is decided by decoding with that key under the configured algorithms, audience and issuer `https://<domain>/`: the payload, or the error matching the exception |
| `Auth.VerificationRejects` | backend/src/auth/auth.py:78-126 | no `kid` gives `invalid_header`/"Authorization malformed."/401 whether or not the `keys` entry exists; with a `kid`, a missing `keys` entry raises, an unreadable key raises KeyError, and no matching key gives `invalid_header`/"Unable to find the appropriate key."/400 |
| `Auth.KidTestedBeforeKeys` | backend/src/auth/auth.py:80-86 | a key set without `keys` and a token header without `kid` give "Authorization malformed.", not an exception |
| `Auth.VerifyDecodeJwt` | backend/src/auth/auth.py:71-126 | the loop that overwrites the selected key on every match computes exactly `Verification` |
| `AuthGate.RequiresAuth` | backend/src/auth/auth.py:129-143 | the stages that ran are a non-empty prefix of header, verification, permission, handler, in that order; the handler stage ran exactly when the response is the handler's; every abort is a 401; every error that gets through is a header or permission error, never a verifier error; a header error or exception, and a permission error or exception after successful verification, is passed on unchanged |
| `AuthGate.HandlerRunsOnlyOnSuccess` | backend/src/auth/auth.py:129-143 | the handler runs at most once, exactly when all three stages succeed, on the verified claim set, and its result is returned unchanged |
| `AuthGate.VerificationFailureCollapses` | backend/src/auth/auth.py:133-137 | after a good header, any verification failure (raised error or other exception) gives a bare 401 |
| `AuthGate.GateAdmits` | backend/src/auth/auth.py:129-143 | a bearer header, a key set holding the token's `kid`, a successful decode with the last such key and a permission list holding the permission together give the handler's result on the decoded claims |
| `AuthGate.GateRefusesMissingPermission` | backend/src/auth/auth.py:133-138 | a verified token whose permission list lacks the permission gets `unauthorized`/403, with its code kept |
| `AuthGate.GateRefusesMissingClaim` | backend/src/auth/auth.py:133-138 | a verified token without a `permissions` claim gets `invalid_claims`/400 through the gate, for every permission including the default |

## Left out

- Fetching the key set: the `urlopen` call with its 1-second timeout and `json.loads`. The parsed document is an input; `None` stands for a failure of either step, and a document whose `keys` entry cannot be read has `keys == None`.
- RS256 signature checking and the `exp`/`iss`/`aud` checks inside `jwt.decode`, and the parsing done by `jwt.get_unverified_header`. These are library calls; their results are inputs.
- JWK fields and the token's `kid` are strings. The source compares any JSON values.
- JSON numbers are integers. Floating-point values never affect the string comparisons modelled here.
- `PyStr.Lower` maps ASCII letters only. Python's `str.lower()` also lowers U+212A KELVIN SIGN to "k" and U+0130 to "i" followed by U+0307. Neither can appear in a result equal to "bearer", the one comparison `Lower` serves, so there the two agree.
- Flask machinery: the `request` global, `abort`'s HTTP rendering, `@wraps`, and the route arguments the wrapper passes on. The debug `print` calls are left out too.
- `backend/src/api.py` is not part of this model: its route handlers, database queries, JSON responses and error handlers, including the handler that renders an `AuthError` as its payload with its status.
- Exceptions raised by the protected handler itself. The handler is a total function of the claim set.
- The configuration constants (`AUTH0_DOMAIN`, `API_AUDIENCE`, `ALGORITHMS`) are a `Config` value, `Auth.CoffeeShop`. The key-set URL is fixed in the source and is not modelled.
