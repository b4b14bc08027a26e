# attend-me client core in Dafny

This project models the client-side core of the attend-me attendance app in three modules.

- `ApiClient` (ApiClient.dfy) models the `Api` facade over the generated HTTP client.
  - `fetchWrapper` picks at most one bearer token for each request. The device token is used on device-scoped paths: `/user/device/register`, `/user/attendance/ticket/get` and `/course/session/attendance/register`, except paths under `/user/device/register/token/get`. Otherwise the user token is used on every path that is not under `/user/login`.
  - `fetchWrapper` copies the caller's request options and changes only the `Authorization` header.
  - When an unauthorized callback is registered, it is called with the request URL exactly when the response status is 401.
  - The two tokens live in memory (`userTokenResult`, `deviceTokenResult`) and in browser storage. The device token is kept in local storage under `attend-me:device-auth`. The user token is kept in session storage under `attend-me:user-auth`.
  - Login, logout, device reset, device registration with a provisional token and token restore change that state.
  - An independent reference for the header rule is a first-match table of prefix rules (`RouteRules`). It is proved to select the same token as the code's prefix tests.
  - `Mirrored()` says the tokens in memory equal the stored ones. Every operation preserves it, except a failed device registration. That call leaves the provisional token in memory and stores nothing.
- `DateHelpers` (DateHelpers.dfy) models `getDateRange` for `today`, `tomorrow`, `next-week`, `past` and any other keyword. It also models the missing-date branch of `formatDatePL` and `formatTimePL`.
  - A date is a count of milliseconds in local time, and every day is 86 400 000 ms long.
  - The current instant is a parameter.
- `NumberHelpers` (NumberHelpers.dfy) models `parseAlbumId` and `isValidAlbumId`.
  - Trimming uses ECMAScript's white-space and line-terminator characters.
  - `Number()` on a string follows the StringNumericLiteral grammar of section 7.1.4.1.1 of ECMA-262:
    - blank text is 0;
    - `0x`, `0o` or `0b` followed by digits of that base is an integer;
    - an optional sign, then `Infinity` or a decimal literal: digits with an optional fraction and an optional exponent;
    - anything else is NaN, which `parseAlbumId` turns into null.
  - A number is an exact real, positive or negative infinity, or NaN.
  - `isValidAlbumId` rejects null and every number `<= 0`. So NaN counts as valid, since `NaN <= 0` is false, but `parseAlbumId` never returns NaN.

`Wrappers` (Wrappers.dfy) holds the `Option` and `Result` datatypes.

Inputs that the code gets from its environment are parameters of the model:
- the result of `fetch`;
- what the base client's `userLogin` and `userDeviceRegister` resolve to, or whether they reject;
- the current time;
- the locale formatter.

Login is not the only way to obtain a user token: `restoreTokens` also sets it from session storage (src/backend/ApiClient.ts:29-32), and the model does the same.

## Model

| member | source | states |
|---|---|---|
| ApiClient.SelectToken | src/backend/ApiClient.ts:60-71 | a held device token is chosen on a device-scoped path; otherwise a held user token on a path not under `/user/login`; no token exactly when neither applies; a chosen token is never for a login path |
| ApiClient.IsUserEndpoint | src/backend/ApiClient.ts:60 | a path is user-scoped exactly when it does not start with `/user/login`; stated through SelectToken and LoginRequestsCarryNoToken |
| ApiClient.IsDeviceEndpoint | src/backend/ApiClient.ts:61-65 | a path is device-scoped when it starts with one of the three device prefixes and not with the token-retrieval prefix; stated through DeviceEndpointCases and DeviceEndpointsAreUserEndpoints |
| ApiClient.CopyInit | src/backend/ApiClient.ts:56 | `{ ...init }`: the caller's options, or no headers and no options when `init` is missing; stated through PrepareRequest and LoginRequestsCarryNoToken |
| ApiClient.PrepareRequest | src/backend/ApiClient.ts:55-71 | the options sent keep every non-options field and every header of `init` except `Authorization`; with no applicable token they equal the copy of `init`; otherwise `Authorization` is `Bearer <selected token>` |
| ApiClient.SelectTokenMatchesRuleTable | src/backend/ApiClient.ts:60-71 | for every path and token state, the prefix tests select the same token as the ordered rule table (carve-out first, then the three device prefixes, then login without a credential, default user) |
| ApiClient.DeviceEndpointsAreUserEndpoints | src/backend/ApiClient.ts:60-65 | no device-scoped path is under `/user/login`, so device scope always implies user scope |
| ApiClient.LoginRequestsCarryNoToken | src/backend/ApiClient.ts:60-71 | any path starting with `/user/login` gets no token whatever is held, and its options equal a copy of `init` |
| ApiClient.DeviceTokenTakesPriority | src/backend/ApiClient.ts:67-68 | on a device-scoped path a held device token is sent as `Bearer <device token>`, even if a user token is held |
| ApiClient.TokenGetUsesUserToken | src/backend/ApiClient.ts:60-70 | paths under `/user/device/register/token/get` are not device-scoped; with both tokens held, they carry the user token |
| ApiClient.DeviceEndpointCases | src/backend/ApiClient.ts:61-65 | the three device prefixes are device-scoped; the carve-out path and the login path are not |
| ApiClient.Storage.GetItem | src/backend/ApiClient.ts:24-29 | returns a value exactly when the key is stored, and then the stored token |
| ApiClient.Storage.SetItem | src/backend/ApiClient.ts:41 | the key maps to the new token afterwards; every other key is unchanged |
| ApiClient.Storage.RemoveItem | src/backend/ApiClient.ts:52 | the key is absent afterwards; every other key is unchanged |
| ApiClient.Api.constructor | src/backend/ApiClient.ts:9-18 | a new client starts with no hook and no callback calls; its tokens are exactly the stored ones, so memory mirrors storage |
| ApiClient.Api.RestoreTokens | src/backend/ApiClient.ts:23-33 | each token whose storage key is present is loaded from its store; a missing key leaves that field unchanged |
| ApiClient.Api.UserLogin | src/backend/ApiClient.ts:35-44 | the base client's login request goes to `/user/login` through `fetchWrapper`, so it is sent as a plain copy of the caller's options with no `Authorization` header, and the 401 callback logs its URL as for any request. The call succeeds exactly when the base call resolves with a result whose token is non-empty. On success the user field and `attend-me:user-auth` hold the result. A falsy result or empty token fails with TokenNotFound, and a rejection fails with Transport; in both cases the user token and session store are unchanged. The device token and local store are never touched, and the mirror is preserved |
| ApiClient.Api.UserLogout | src/backend/ApiClient.ts:50-53 | clears the user field and removes only `attend-me:user-auth`; the device token and local store are unchanged; the mirror is preserved |
| ApiClient.Api.FetchWrapper | src/backend/ApiClient.ts:55-83 | the request goes out with `PrepareRequest` of the current tokens; the response is returned unchanged; the callback log grows by exactly `[requestUrl]` when a hook is registered and the status is 401, and by nothing otherwise |
| ApiClient.Api.DeviceAuthReset | src/backend/ApiClient.ts:85-88 | clears the device field and removes only `attend-me:device-auth`; the user token and session store are unchanged; the mirror is preserved |
| ApiClient.Api.UserDeviceRegisterWithToken | src/backend/ApiClient.ts:90-98 | the registration request to `/user/device/register` carries `Bearer <provisional token>`. On success the field and `attend-me:device-auth` hold the issued token. On failure the provisional token stays in memory and local storage is unchanged. The user token and session store are untouched, and the 401 hook applies to this request too |
| DateHelpers.WeekDay | src/utils/dateHelpers.ts:41 | `getDay()`: the weekday follows the day number, 1 January 1970 being a Thursday, and moves by n when the day moves by n; stated through WeekDayShift and StartOfDayFacts |
| DateHelpers.StartOfDay | src/utils/dateHelpers.ts:25 | `new Date(year, month, day)`: midnight of the day of `t`, at or before `t` and less than a day before it, on the same day and weekday; stated through StartOfDayFacts and Split |
| DateHelpers.AtTime | src/utils/dateHelpers.ts:26 | `new Date(year, month, day, h, min, s, ms)`, and `setHours(h, min, s, ms)` at line 46: the given time on the day of `t`, so 23:59:59.999 is that day's last millisecond; stated through TodayRange, Midnight and Split |
| DateHelpers.AddDays | src/utils/dateHelpers.ts:34 | `setDate(getDate() + n)`, also at lines 36, 43 and 45: the same time of day, n days later; stated through Midnight and TomorrowRange |
| DateHelpers.GetDateRange | src/utils/dateHelpers.ts:23-55 | an end bound exists exactly for the four keywords, and a start bound exactly for `today`, `tomorrow` and `next-week` |
| DateHelpers.TodayRange | src/utils/dateHelpers.ts:24-30 | `today` runs from 00:00:00.000 to 23:59:59.999 of the current day; `now` lies between the bounds and start is before end |
| DateHelpers.TomorrowRange | src/utils/dateHelpers.ts:32-38 | both `tomorrow` bounds are exactly one day after the `today` bounds, on the next calendar day at 00:00:00.000 and 23:59:59.999 |
| DateHelpers.DaysUntilNextMonday | src/utils/dateHelpers.ts:41 | the number of days to the next Monday is between 1 and 7 |
| DateHelpers.DaysUntilNextMondayFacts | src/utils/dateHelpers.ts:41 | the offset `(1 + 7 - d) % 7`, or 7 when that is 0, is in 1..7; it is 7 exactly when d is Monday; it reaches a Monday and passes no Monday on the way |
| DateHelpers.NextWeekRange | src/utils/dateHelpers.ts:40-48 | `next-week` starts 1..7 days ahead (7 exactly on a Monday) on the first Monday after today at 00:00:00.000; it ends 6 days later at 23:59:59.999, which is a Sunday, after the start |
| DateHelpers.PastRange | src/utils/dateHelpers.ts:50-52 | `past` has no start; its end is one millisecond before today's start (yesterday 23:59:59.999), so it is before `now` |
| DateHelpers.OtherFilterRange | src/utils/dateHelpers.ts:54 | any other filter string yields neither bound |
| DateHelpers.FormatDatePL | src/utils/dateHelpers.ts:6-11 | a missing date formats as the empty string; a present one as the locale formatter gives it |
| DateHelpers.FormatTimePL | src/utils/dateHelpers.ts:13-21 | a missing date formats as the empty string; a present one as the locale formatter gives it |
| NumberHelpers.TrimStart | src/utils/numberHelpers.ts:2 | the result is a suffix of the input, everything removed is white space, and it does not begin with white space |
| NumberHelpers.TrimEnd | src/utils/numberHelpers.ts:2 | the result is a prefix of the input, everything removed is white space, and it does not end with white space |
| NumberHelpers.Trim | src/utils/numberHelpers.ts:2 | the result is no longer than the input and neither starts nor ends with white space |
| NumberHelpers.TrimEmptyExactly | src/utils/numberHelpers.ts:2 | trimming leaves nothing exactly when the text is all white space |
| NumberHelpers.TrimIgnoresSurroundingWhiteSpace | src/utils/numberHelpers.ts:2 | trimming `pre + t + post`, with `pre` and `post` all white space, gives the same as trimming `t` |
| NumberHelpers.TrimIdempotent | src/utils/numberHelpers.ts:2 | trimming twice is the same as trimming once |
| NumberHelpers.TrimOfTrimmed | src/utils/numberHelpers.ts:2 | text that neither starts nor ends with white space is its own trim |
| NumberHelpers.ToNumber | src/utils/numberHelpers.ts:3 | `Number` of blank text is 0, and of an optionally signed digit string its integer value |
| NumberHelpers.NumberAlphabet | src/utils/numberHelpers.ts:3 | `Number` gives something other than NaN only for text made of digits, radix letters, signs, `.`, `e`/`E` and the letters of `Infinity` |
| NumberHelpers.FractionDecimal | src/utils/numberHelpers.ts:3 | digits, a `.` and more digits convert to the whole part plus the fraction digits over the matching power of ten |
| NumberHelpers.ParseAlbumId | src/utils/numberHelpers.ts:1-10 | the result is never NaN; blank or all-white-space input is 0; input whose trimmed text is an optionally signed digit string is that integer; a null result means the trimmed text is neither blank nor such a digit string |
| NumberHelpers.ParseIgnoresWhiteSpace | src/utils/numberHelpers.ts:1-3 | `parseAlbumId(pre + s + post) == parseAlbumId(s) == parseAlbumId(trim(s))` |
| NumberHelpers.DigitsParse | src/utils/numberHelpers.ts:1-10 | a non-empty decimal digit string parses to its integer value |
| NumberHelpers.ParseDecimalRoundTrip | src/utils/numberHelpers.ts:1-10 | the decimal digits of any whole number, with any white space around them, parse back to that number |
| NumberHelpers.FractionalIdParse | src/utils/numberHelpers.ts:1-22 | an id `w.f` written with a decimal fraction parses to its exact value, and is valid exactly when that value is positive |
| NumberHelpers.BlankParsesToZero | src/utils/numberHelpers.ts:1-19 | blank or all-white-space input parses to 0, not null, and 0 is then not a valid album id |
| NumberHelpers.ParseNullExactly | src/utils/numberHelpers.ts:1-10 | a null result implies the trimmed text is neither blank nor an optionally signed digit string |
| NumberHelpers.NonNumericIsNull | src/utils/numberHelpers.ts:1-7 | text holding a character that is neither white space nor able to appear in a numeric literal parses to null |
| NumberHelpers.AtMostZero | src/utils/numberHelpers.ts:17 | JavaScript's `albumId <= 0`: true for a finite number at most 0 and for negative infinity, false for positive infinity and NaN; stated through IsValidAlbumId |
| NumberHelpers.IsValidAlbumId | src/utils/numberHelpers.ts:12-22 | null is invalid; a finite number is valid exactly when it is greater than 0; positive infinity is valid, negative infinity is not; NaN is valid, because `NaN <= 0` is false |
| NumberHelpers.NegativeNeverValid | src/utils/numberHelpers.ts:1-22 | trimmed text starting with `-` never gives a valid album id |
| NumberHelpers.ValidAlbumIdExactly | src/utils/numberHelpers.ts:1-22 | when the trimmed text is an optionally signed digit string, the input is a valid album id exactly when its value is positive |
| NumberHelpers.NumberOfText | src/utils/numberHelpers.ts:3 | `Number('abc')` is NaN |
| NumberHelpers.ParseExampleNumber | src/utils/numberHelpers.ts:1-10 | `parseAlbumId('  42 ')` is 42 |
| NumberHelpers.ParseExampleText | src/utils/numberHelpers.ts:1-10 | `parseAlbumId('abc')` is null |
| NumberHelpers.NumberOfFraction | src/utils/numberHelpers.ts:3 | `Number('1.5')` is 1.5 |
| NumberHelpers.ParseExampleFraction | src/utils/numberHelpers.ts:1-22 | `parseAlbumId('1.5')` is 1.5, and that is a valid album id |
| NumberHelpers.NumberOfHex | src/utils/numberHelpers.ts:3 | `Number('0x1F')` is 31 |
| NumberHelpers.ParseExampleHex | src/utils/numberHelpers.ts:1-22 | `parseAlbumId('0x1F')` is 31, and that is a valid album id |
| NumberHelpers.NumberOfExponent | src/utils/numberHelpers.ts:3 | `Number('1e3')` is 1000 |
| NumberHelpers.ParseExampleExponent | src/utils/numberHelpers.ts:1-22 | `parseAlbumId('1e3')` is 1000, and that is a valid album id |
| NumberHelpers.NumberOfInfinity | src/utils/numberHelpers.ts:3 | `Number('Infinity')` is positive infinity |
| NumberHelpers.ParseExampleInfinity | src/utils/numberHelpers.ts:1-22 | `parseAlbumId('Infinity')` is Infinity, and that is a valid album id |
| NumberHelpers.NumberOfMinusInfinity | src/utils/numberHelpers.ts:3 | `Number('-Infinity')` is negative infinity |
| NumberHelpers.ParseExampleMinusInfinity | src/utils/numberHelpers.ts:1-22 | `parseAlbumId('-Infinity')` is minus Infinity, which is not a valid album id |

## Left out

- URL parsing: `fetchWrapper` receives the request URL and its path separately. `new URL(...)` is not modelled, including its exception for an invalid URL, and neither is a `Request` object passed instead of a string.
- Real `fetch` and promises: the response, or a network failure, is an input, and each call completes at once. Because calls are atomic, the model does not capture a hook that is registered or removed while a request is in flight.
- Request headers are modelled as a plain name-to-value map. A `Headers` instance or an array of pairs in `init.headers` is not modelled.
- `window.localStorage` and `window.sessionStorage` are maps from key to token (`Storage`). `JSON.stringify`, `JSON.parse` with `dateReviver`, and the parse error on malformed stored text are not modelled. src/utils/JsonHelpers.ts is not part of this model.
- The base client (`ApiClientBase`) is not part of this model.
  - Its `userLogin` and `userDeviceRegister` are inputs that resolve to a value or reject. These inputs are independent of the response given to `fetchWrapper`.
  - The login name, password and `DeviceRegisterDTO` payload are only forwarded to it. The payload is omitted from the model.
  - Its registration request is taken to go to `/user/device/register`, and its login request to `/user/login`.
- `userGet` is a passthrough to the base client with no logic of its own. So are the `jsonParseReviver` setting and the binding of `fetch` in the constructor.
- The module-level singleton and the router are out of scope; the router only registers the callback that navigates to the login page. The callback itself is modelled as a log of the URLs it receives.
- ParseAlbumId: numbers are exact reals, not IEEE 754 doubles.
  - Rounding is not modelled. For example, `1e-400` rounds to 0 in JavaScript and is then not a valid album id, but the model keeps it as a positive number and calls it valid.
  - Integers above 2^53 are exact here, and so are long fractions.
  - The sign of `-0` is not modelled.
  - Fractional, hexadecimal, exponent and `Infinity` ids pass `isValidAlbumId` in the source, and they pass it in the model too.
- ValidAlbumIdExactly: its if-and-only-if covers only optionally signed digit strings. For other text, FractionalIdParse, NegativeNeverValid and the example lemmas give the answer.
- GetDateRange: time zones and daylight saving are not modelled. A date is a count of milliseconds, and every day is exactly 86 400 000 ms long.
  - Adding whole days in milliseconds crosses month and year ends just as `setDate` does.
  - The calendar's year, month and day-of-month fields are not represented.
  - The weekday follows from the day number, since 1 January 1970 was a Thursday.
- FormatDatePL, FormatTimePL: the `pl-PL` locale formatting is a library call, and it is a function parameter here.
