# FinBoard backend core, modelled in Dafny

FinBoard is a small Flask backend for a watchlist of financial instruments
and alerts on them. This project models the parts of `backend/app.py` that
are logic and not plumbing:

- the **symbol normaliser** `normalize_symbol`. It strips and upper-cases a
  raw symbol. An FX pair `ABC/XYZ` becomes `ABCXYZ=X`. Five alias keys
  become their ticker. Anything else is returned as it is after stripping
  and upper-casing.
- the **bearer-token check** `require_token`. The `Authorization` header
  must start with `Bearer `, and what follows the first blank, stripped,
  must equal the configured `API_TOKEN` (`DEMO-TOKEN` by default).
- the **watchlist POST validation**. It reads and strips `symbol` and
  `label` from the JSON body, refuses a blank symbol and normalises the
  symbol.
- the **alert PATCH builder**. It collects one column and one SQL parameter
  for each of `enabled`, `name` and `cond` that is present, refuses an
  empty edit, and then appends `updated_ts`, the alert id and the user id 0.

Modules:

- `Wrappers` (`wrappers.dfy`): `Option` and `Result`.
- `Text` (`text.dfy`): Python's `str.strip`, ASCII `str.upper`,
  `startswith` and `split(" ", 1)[1]` on `seq<char>`.
  - The whitespace set is the exact set of code points Python's
    `str.isspace` accepts.
  - `Strip` is characterised by `StripSpec` and `StripUnique`: the unique
    slice with only whitespace outside it and no whitespace at either end.
- `Symbols` (`symbols.dfy`): the alias table, the FX pair pattern,
  `Normalize`, and the seed rows of an empty database.
- `Auth` (`auth.dfy`): `RequireToken`, the default token, and the header
  the dashboard client builds (`frontend/dashboard/js/API.js`).
- `Handlers` (`handlers.dfy`): the JSON body, the watchlist POST as a
  function, and the PATCH builder as a method.
  - The body is a map from keys to values. A value is a string, or a
    non-string given by its Python truth value and its `str()` text.
  - The builder grows the `fields` and `params` sequences with appends, as
    the source does.
  - It is proved against the specification functions `Edits` and
    `Bindings`.

The string functions (`TrimStart`, `TrimEnd` and `Upper`, which are
recursive, and `Strip` and `Normalize`, which are built from them) carry no
contracts of their own. Their properties are stated
and proved as lemmas beside them.

Error responses are the `ApiError` values:

- `Unauthorized` is 401.
- `SymbolRequired` and `NoFields` are 400.
- `NotAString` stands for the 500 Flask returns when `.strip()` is called on
  a truthy non-string, such as `{"symbol": 5}`, and raises `AttributeError`.

## Model

| member | source | states |
|---|---|---|
| Text.TrimStartSpec | backend/app.py:62 | the result is a suffix of the input, everything removed is whitespace, and the result is empty or starts with a non-space |
| Text.TrimEndSpec | backend/app.py:62 | the result is a prefix of the input, everything removed is whitespace, and the result is empty or ends with a non-space |
| Text.StripSpec | backend/app.py:62 | `strip()` returns a slice with only whitespace outside it, and the slice has no whitespace at either end |
| Text.TrimmedSliceEmpty | backend/app.py:62 | helper for the `strip()` lemmas: such a slice is empty exactly when the whole string is whitespace |
| Text.PaddedUnique | backend/app.py:62 | helper for `StripUnique`: two trimmed slices with only whitespace outside are the same slice |
| Text.StripUnique | backend/app.py:62 | any trimmed slice with only whitespace outside it is `strip()`'s result |
| Text.StripTrimmed | backend/app.py:62 | stripping a string without surrounding whitespace returns it unchanged |
| Text.StripEmpty | backend/app.py:62 | `strip()` is empty exactly when the string is all whitespace |
| Text.UpperChar | backend/app.py:62 | an ASCII lower-case letter moves to upper case, and every other character is kept |
| Text.UpperSpec | backend/app.py:62 | `upper()` keeps the length and upper-cases character by character |
| Text.UpperCanonical | backend/app.py:62 | `upper()` leaves no lower-case letter, is idempotent, keeps a trimmed string trimmed, and is the identity on strings without lower case |
| Text.IndexOf | backend/app.py:83 | the position of the first occurrence of a character |
| Text.AfterFirst | backend/app.py:83 | `split(c, 1)[1]` is everything after the first occurrence of `c` |
| Symbols.AliasTable | backend/app.py:59-63 | no alias key matches the pair rule that is tried before the lookup, and every value is one of the three tickers, trimmed and without lower case |
| Symbols.FxTickerForm | backend/app.py:60-64 | a matched pair `ABC/XYZ` becomes the 8 characters `ABCXYZ=X` |
| Symbols.NormalizeForm | backend/app.py:61-65 | every normalised symbol is trimmed and has no lower-case ASCII letter |
| Symbols.FxMatchIgnoresCase | backend/app.py:60-63 | after upper-casing, the pair pattern matches exactly the strings of three letters, `/`, three letters, in any case |
| Symbols.NormalizeFx | backend/app.py:60-64 | a stripped input `abc/xyz` in any case becomes the upper-cased six letters followed by `=X` |
| Symbols.NormalizeAlias | backend/app.py:59-65 | `BTC` and `BTCUSD` give `BTC-USD`, `ETH` and `ETHUSD` give `ETH-USD`, and `TSMC` gives `2330.TW`, after strip and upper-case |
| Symbols.NormalizePassThrough | backend/app.py:62-65 | any other input comes back stripped and upper-cased |
| Symbols.RewritesAreFixed | backend/app.py:59-64 | no FX ticker and no alias value is itself a pair or an alias key |
| Symbols.NormalizeCanonical | backend/app.py:61-65 | on a trimmed string without lower case, the rules apply to the string itself |
| Symbols.NormalizeIdempotent | backend/app.py:61-65 | normalising twice equals normalising once |
| Symbols.NormalizeNonEmpty | backend/app.py:62-65 | a symbol that is not blank normalises to a non-empty identifier |
| Symbols.NormalizeFixedPoint | backend/app.py:65 | a trimmed upper-case symbol that neither matches nor is an alias normalises to itself |
| Symbols.SeedWatchlistAgrees | backend/app.py:161 | every seeded watchlist row stores the normal form of its symbol |
| Symbols.SeedPair | backend/app.py:161 | `USD/TWD` normalises to `USDTWD=X` |
| Symbols.SeedAlertsAgree | backend/app.py:166 | every seeded alert row stores the normal form of its symbol |
| Symbols.LowerCasePairExample | backend/app.py:62-64 | `usd/twd` matches because matching happens after upper-casing, so it becomes `USDTWD=X` |
| Symbols.PaddedAliasExample | backend/app.py:62-65 | ` tsmc ` becomes `2330.TW` |
| Auth.PrefixHasBlank | backend/app.py:83 | helper: a header with the `Bearer ` prefix contains a blank, so `split(" ", 1)[1]` exists |
| Auth.AfterPrefix | backend/app.py:83 | with the prefix present, what follows the first blank is the header after its first 7 characters |
| Auth.RequireTokenIff | backend/app.py:81-83 | authorised exactly when the header starts with `Bearer ` and the rest, stripped, is the token |
| Auth.BearerHeaderAccepted | backend/app.py:83 | `Bearer t` is accepted exactly when `t` strips to the token |
| Auth.MissingHeaderRejected | backend/app.py:82-83 | a missing header reads as `""` and is never authorised |
| Auth.ClientHeaderAccepted | frontend/dashboard/js/API.js:9-12 | what the dashboard client sends is accepted exactly when it stores a non-empty token that strips to the configured one |
| Auth.UntrimmedTokenUnmatchable | backend/app.py:83 | a configured token with whitespace at either end can never be matched |
| Auth.DefaultTokenAccepted | backend/app.py:12 | without `API_TOKEN` set, `Bearer DEMO-TOKEN` is accepted |
| Handlers.WatchlistPostOutcomes | backend/app.py:96-101 | the POST is refused as unauthorised exactly when the token check fails; fails on a truthy non-string symbol or label exactly when authorised; is refused as "symbol required" exactly when the symbol is missing, falsy or blank; never returns "no fields"; is accepted exactly when authorised, both fields are strings or falsy, and the symbol is not blank; and then stores the stripped, non-empty symbol, its non-empty and idempotent normal form, the stripped label (or `""` when it is missing or falsy), and now as both timestamps |
| Handlers.EditsSpec | backend/app.py:129-132 | the edited columns are exactly the editable keys present, in the order `enabled`, `name`, `cond`, and there are none exactly when no such key is present |
| Handlers.SubsequenceSkip | backend/app.py:129-132 | general helper for the order clause of `EditsSpec`: a subsequence of a list's tail is a subsequence of the list |
| Handlers.SubsequenceDropHead | backend/app.py:129-132 | general helper for the order clause of `EditsSpec`: dropping the first element of a subsequence keeps it a subsequence |
| Handlers.BindingsAlign | backend/app.py:129-132 | there is one parameter per edited column, at the same position, bound from that key's value |
| Handlers.OtherKeysIgnored | backend/app.py:129-132 | keys other than the editable ones do not change the columns or parameters |
| Handlers.EditableUnfolded | backend/app.py:129-132 | the columns and parameters are the three conditional appends in order |
| Handlers.ParamForSpec | backend/app.py:130-132 | `enabled` is bound as 1 or 0 by truthiness, and `name` and `cond` as text, with a falsy value bound as `""` |
| Handlers.EnabledComesFirst | backend/app.py:130 | when `enabled` is present it is the first column, and its parameter is the 0/1 flag |
| Handlers.BuildUpdate | backend/app.py:128-135 | "no fields" exactly when none of `enabled`, `name`, `cond` is present, and that is its only error; otherwise the columns are the edited keys then `updated_ts`, and the parameters are their bindings then now, the alert id and 0 |
| Handlers.AlertsPatch | backend/app.py:127-135 | an unauthorised request is refused before the body is read; an authorised one gets "no fields" exactly when nothing editable is present, and no other error; an accepted update has the shape above |

## Left out

- SQLite: the schema, `db_conn`, `init_db`, and every `SELECT`, `INSERT`, `UPDATE` and `DELETE` is persistence I/O. The model builds the row values and the parameter lists but does not execute them. The inserted row's id (`lastrowid`) and the row read back afterwards are therefore not modelled.
- The SET clause text: each column name stands for its `<name>=?` fragment, and the `', '.join` is not modelled.
- `price_of` and `price_api`: network calls to yfinance, floating-point rounding, NaN checks and exception swallowing. The only logical fact is that `price_api` reports `ok` exactly when the price is not `None`.
- Flask routing, CORS, static file serving, the root info endpoint, the watchlist GET and DELETE, the alerts GET, and the `__main__` bootstrap. The seed rows of the bootstrap are kept only as data that `Normalize` must agree with.
- Clocks: `datetime.utcnow()` is the parameter `nowTs`. `os.getenv` is the `Option` parameter of `ConfiguredToken`. A missing header is the `None` argument of `HeaderValue`.
- Text.UpperChar: only ASCII letters are case-mapped. Python's `upper()` also maps other letters, some to several characters (`ß` becomes `SS`). So `Symbols.NormalizeForm` and `Symbols.NormalizeIdempotent` speak of ASCII lower case only.
- The body is modelled as a JSON object only. A falsy body of another type (`[]`, `""`, `0`, `false`, `null`) becomes `{}` through `or {}` (backend/app.py:97, 128), which the model covers as the empty map. A truthy body of another type is not modelled, and the two endpoints treat it differently:
  - In the watchlist POST, `data.get` raises `AttributeError` (500) on it (backend/app.py:98).
  - In the alert PATCH, `"enabled" in data` is tested first (backend/app.py:130-132). On a number or `true` this raises `TypeError` (500).
  - On an array or a string it is a membership or substring test. If none of the three names is found, the answer is 400 "no fields" without any `data.get` call. If one is found, the `data.get` that follows raises `AttributeError` (500).
- JSON values other than strings are not modelled structurally. A value carries only its Python truth value and its `str()` text, which is all the handlers use.
- Auth.ClientHeaderAccepted: speaks of the header value as `authHeaders()` builds it (frontend/dashboard/js/API.js:9-12), not as `fetch` sends it (line 20). `fetch` removes leading and trailing HTTP whitespace from header values, so a stored token of blanks arrives as `Bearer` and is rejected even when `API_TOKEN` is `""`. `fetch` also throws on a header value with a character above U+00FF, so such a token is never sent.
- The rest of `frontend/dashboard/js/API.js` (fetch, `localStorage`, error wrapping) is browser plumbing. It is used only for the header format it sends.
- No condition evaluator and no alert-evaluation cycle exists in the code; `cond` is only stored and patched as a string (backend/app.py:32, 132, 166-168).
