# Fibertel station exporter: a Dafny model of the scrape

A Prometheus exporter for the Fibertel cable modem. Each scrape logs in to
the modem's web interface, reports the session, fetches the four DOCSIS channel tables,
turns every channel into gauges, and logs out. The model covers the modem client
(`collector/api.go`) and the collector (`collector/collector.go`) as pure Dafny
functions:

- **Session** (`Api`). A session holds the current anti-forgery token and a log of
  exchanges. It also holds a *script*: the replies the modem will give, in order. Once
  the script runs out, every later request gets `NoResponse`, which models a transport
  error. A `Reply` carries its `Set-Cookie` value and a body. The body is `None` when it
  could not be read. Otherwise it holds what the body decodes to as each response record,
  with a flag saying whether that decoding was clean.
- **Token threading** (`Csrf`, `Api.WellThreaded`). The source keeps the token in a
  process-wide variable. The model keeps it in the session. It proves that the token is
  always the fold of `UpdateToken` over every `Set-Cookie` received so far. That fold
  equals the token the modem issued last. It also proves that every request carried the
  fold of the replies before it.
- **Credentials** (`Credentials`). PBKDF2 with HMAC-SHA-256 (section 5.2 of RFC 8018) is
  a function parameter. The only property assumed of it is that it returns as many bytes
  as it is asked for. The hex encoding is modelled exactly, and so is the UTF-8 conversion for strings of
  Unicode scalar values.
- **Numbers** (`Numeric`). `parse2float` works on exact rationals. It keeps only digits
  and points. A malformed literal, or one at or above the float64 overflow threshold
  2^1024 − 2^970, falls back to 0. It is defined as one pass over the reading
  (`Numeric.Scan`), which is proved equal to the filter followed by the parse.
- **Metrics and scrape** (`Metrics`, `Collector`). Each of the 28 descriptors has its
  name and label names. `Describe` is modelled as listed. A scrape is the ordered
  sequence of observations it emits, together with the final session. A `completed`
  flag is false when a login reply without `data` makes the Go code panic partway
  through.

The clock is a parameter: `nowMillis` is the value `makeTimestamp` would return.

Where the model follows the code rather than what its names suggest:

- `collector/collector.go:170` reads `upstreamChannel.Locked`, but the upstream record
  (`collector/api.go:108-116`) has no such field; its lock state is `LockStatus`. As
  written, the package does not compile. The model reads `LockStatus`, the only field
  that can be meant.
- All four channel kinds name their third label `fft`. For legacy downstream channels
  that label holds the modulation, and for legacy upstream channels the symbol rate.
- Frequencies and bandwidths are multiplied by the Go literal `10e9`, which is 10^10
  (`Collector.FrequencyScale`), not 10^9. No SI prefix has that factor (a MHz
  reading would need 10^6), so the `_hertz` gauges are not in hertz for any unit the
  modem could report in. The intended factor cannot be read off the code, so the model
  keeps 10^10.
- The credential reply's decoding error is ignored (`collector/api.go:165-166`). Only
  its `error` field decides. The status reply's `error` field is never checked.
- A successful login whose reply has no `data` record dereferences nil at
  `collector/collector.go:140`. The scrape stops there with the session still open
  (`Collector.MissingLoginDataAbortsScrape`).
- A failed login reports `logout_success` 0 although no logout request is made.

## Model

| member | source | states |
|---|---|---|
| Csrf.UpdateToken | collector/api.go:252-256 | A reply whose `Set-Cookie` value has no match of `auth=([^;]+)` leaves the token unchanged. A reply with a match replaces it with the non-empty capture at the leftmost match, which never contains `;`. |
| Api.DoRequest | collector/api.go:231-259 | Appends exactly one exchange: the given verb, URL and form, sent with the fixed Referer and XMLHttpRequest headers, the current token, and the form content type on POSTs only. The reply is the next scripted one, or none. Succeeds exactly when a reply arrived with a readable body, and then returns that body. Whenever any reply arrived, even with an unreadable body, the token is updated from its Set-Cookie. The session stays well threaded. |
| Api.RequestHeadersCarryToken | collector/api.go:238-243 | The headers built for a request carry Referer, X-Requested-With and X-Csrf-Token set to the given token. They carry a Content-Type, the form encoding, exactly for POST. |
| Api.ThreadingExtends | collector/api.go:243-256 | Adding one exchange keeps the token invariant, if that exchange was sent with the current token and its cookie was harvested into the next token. The invariant: the token is the harvest of all received cookies, and every logged request carried the harvest of the cookies before it. |
| Api.GetLoginSalts | collector/api.go:211-229 | One POST to the login endpoint with the username, the reserved password `seeksalthash` and `logout=true`. Succeeds exactly when the reply arrived, decoded, and says `ok`, returning its salts. Otherwise it reports a transport, decoding or not-ok error, in that order of precedence. |
| Api.Login | collector/api.go:145-179 | Makes between one and four requests and only appends to the log. Keeps the session well threaded. |
| Api.LoginCalls | collector/api.go:145-171 | The requests a login makes, in order: the bootstrap GET; then the salt POST, only after the bootstrap reply arrived; then the credential POST carrying the password derived from those salts, only after they were accepted; then the menu GET, only after the credential reply said `ok`. |
| Api.LoginOutcome | collector/api.go:145-179 | A login succeeds exactly when all four requests were made and the menu reply arrived. It then returns the credential reply's record. A login that stopped after one, two or three requests stopped because that request's reply was missing, not accepted, or not `ok`. |
| Api.Authenticate | collector/api.go:155-178 | The credential POST, then the menu GET exactly when the credential reply said `ok`, regardless of its decoding error. Succeeds exactly when the menu reply arrived, returning the credential record. |
| Api.Logout | collector/api.go:181-195 | One POST to the logout endpoint. Succeeds exactly when the reply arrived, decoded, and says `ok`, returning the logout record. Keeps the session well threaded. |
| Api.GetModemStatus | collector/api.go:197-205 | One GET of the four channel tables, with the clock's milliseconds in decimal appended to the URL. Fails only when no readable reply arrived. Otherwise it returns the decoded record together with its decoding verdict. |
| Csrf.ExtractToken | collector/api.go:252-256 | `None` exactly when `auth=` followed by a non-`;` character occurs nowhere. Otherwise the result is the non-empty, `;`-free, maximal run after the leftmost such occurrence. |
| Api.ReceivedCookiesArrived | collector/api.go:244-256 | The cookies harvested from a log are exactly those of the replies that arrived. Each collected value is the `Set-Cookie` of some reply that arrived, every reply that arrived contributes its value, and the last exchange's value comes last when its reply arrived. |
| Csrf.HarvestIsLastIssued | collector/api.go:252-256 | Updating the token reply by reply leaves the token issued by the latest reply that issued one, or the initial token if none did. |
| Csrf.HarvestSnoc | collector/api.go:252-256 | Harvesting one more cookie is one more token update on the previous harvest. |
| Csrf.IssuedTokenRoundTrip | collector/api.go:252-256 | A cookie `auth=<t>`, alone or followed by `;` and any attributes, yields exactly `t` when `t` is non-empty and has no `;`. |
| Csrf.ExtractAfterMatchFreePrefix | collector/api.go:252-256 | A token announced after a stretch in which the expression matches nowhere is the one extracted. |
| Csrf.ExtractFromCookieHeader | collector/api.go:252-256 | On `HttpOnly; auth=XYZ123; Path=/` the extracted token is `XYZ123`. |
| Credentials.DoPbkdf2NotCoded | collector/api.go:266-269 | One derivation stage is 32 lower-case hex digits, whatever the key and salt; `DoPbkdf2NotCodedHex` states which bytes they encode. |
| Credentials.GetLoginPassword | collector/api.go:262-264 | The login password is 32 lower-case hex digits; `GetLoginPasswordStages` states the two derivation stages it is built from. |
| Credentials.DoPbkdf2NotCodedHex | collector/api.go:266-269 | One derivation stage yields 32 lower-case hex digits. They decode back to the first 16 bytes of PBKDF2 over the UTF-8 bytes of key and salt, with 1000 iterations and a 128-byte key. |
| Credentials.GetLoginPasswordStages | collector/api.go:262-264 | The login password is 32 lower-case hex digits. They encode the first 16 bytes of PBKDF2 over the ASCII bytes of the first stage's hex text and `saltWebUI`. The first stage in turn encodes the first 16 bytes of PBKDF2 over the password and `salt`. |
| Text.FormatInt | collector/api.go:198 | The canonical decimal numeral of an integer: a non-empty digit string that denotes the number, with no leading zero except for 0 itself. A negative number gets a leading minus sign, and its digits have no leading zero either. |
| Text.HexEncode | collector/api.go:268 | Two lower-case hex digits per byte. |
| Text.HexDecodeEncode | collector/api.go:268 | Decoding the hex encoding gives back the bytes. |
| Text.HexEncodeDecode | collector/api.go:268 | Every even-length lower-case hex string is the encoding of what it decodes to. |
| Text.EncodeRune | collector/api.go:267 | One character's UTF-8 sequence has one to four bytes. Its length is one exactly below 0x80, two below 0x800, three below 0x10000, and four above. Its leading byte announces that length, the other bytes are continuation bytes, and its payload bits spell the character's code point. |
| Text.Utf8Encode | collector/api.go:267 | The UTF-8 bytes of a string number at least its length and at most four times its length. ASCII text takes exactly one byte per character, the character's code. |
| Text.Utf8EncodeInjective | collector/api.go:267 | Distinct strings have distinct UTF-8 encodings, so distinct passwords and salts reach PBKDF2 as distinct bytes. |
| Numeric.KeepDecimalChars | collector/collector.go:194-195 | The result holds only digits and points. Each of them occurs exactly as often as in the input, and the result is in the input's order, because filtering distributes over concatenation. A string of digits and points is left unchanged. |
| Numeric.KeepDecimalCharsAppend | collector/collector.go:194-195 | Filtering the concatenation of two strings gives the concatenation of their filtered parts. |
| Numeric.Parse2Float | collector/collector.go:193-201 | The parsed value is never negative. |
| Numeric.ScanFilters | collector/collector.go:194-200 | Finishing the one-pass scan from any point gives the parse of the digits and points kept so far followed by those of the rest of the reading, or 0 when that does not parse. |
| Numeric.Parse2FloatFilters | collector/collector.go:193-201 | `parse2float` equals removing every character outside `[.0-9]` and then parsing what is left, with 0 when the parse fails. |
| Numeric.Parse2FloatWithoutDigits | collector/collector.go:193-201 | A reading without a digit parses to 0. |
| Numeric.Parse2FloatOfTwoPoints | collector/collector.go:193-201 | A reading with two or more points parses to 0, whatever its digits. |
| Numeric.Parse2FloatIgnoresUnits | collector/collector.go:193-201 | Adding text with no digit or point after the reading (a unit) or before it (a sign, spaces) leaves the value unchanged. |
| Numeric.Parse2FloatOfDecimal | collector/collector.go:193-201 | Whole digits, a point and fraction digits parse to whole + fraction / 10^(number of fraction digits), provided the value is below the float64 overflow threshold. |
| Numeric.Parse2FloatOfDecimalChars | collector/collector.go:196-200 | On digits and points alone, the result is the parse, or 0 when the parse fails. |
| Numeric.Parse2FloatOfNumeral | collector/collector.go:193-201 | The decimal numeral of a natural number below the overflow threshold parses back to that number. |
| Numeric.Bool2Float64 | collector/collector.go:203-208 | 1 exactly for true and 0 exactly for false. |
| NumericExamples.Parse2FloatFrequencyExample | collector/collector.go:193-201 | `123.4 MHz` reads as 123.4. |
| NumericExamples.Parse2FloatPowerExample | collector/collector.go:193-201 | `3.5 dBmV` reads as 3.5. |
| NumericExamples.Parse2FloatNegativeExample | collector/collector.go:193-201 | `-3.5 dBmV` reads as 3.5, because the sign is dropped. |
| NumericExamples.Parse2FloatGarbageExample | collector/collector.go:193-201 | `garbage` reads as 0. |
| NumericExamples.Parse2FloatTwoPointsExample | collector/collector.go:193-201 | `1.2.3` reads as 0. |
| Metrics.LabelNames | collector/collector.go:52-89 | The login, default-password and logout indicators have no labels. The two messages have the one label `message`, and user and uid one label each. Every channel descriptor has four labels, starting with `id` and ending with `fft` and `channel_type`. The ranging status has the upstream labels plus a fifth, `status`. |
| Metrics.FqName | collector/collector.go:50-89 | Every descriptor name starts with `fibertel_`. |
| Metrics.Suffix | collector/collector.go:53-89 | Every descriptor has a non-empty name after the prefix. `FqNameInjective` states that no two descriptors share a name. |
| Metrics.SuffixDecodes | collector/collector.go:53-89 | Each descriptor's name after the prefix decodes back to that descriptor, so the 28 names are pairwise distinct. |
| Metrics.FqNameInjective | collector/collector.go:53-89 | Two descriptors with the same fully-qualified name are the same descriptor: the 28 descriptors `init` builds all have different names. |
| Metrics.Describe | collector/collector.go:93-126 | 27 entries. The downstream SNR descriptor appears twice. Neither legacy lock descriptor appears. |
| Metrics.DescribeOmitsOnlyLegacyLocks | collector/collector.go:93-126 | A descriptor is announced exactly when it is not one of the two legacy lock descriptors. |
| Metrics.DescribeCorrected | collector/collector.go:52-126 | All 28 descriptors `init` builds, each exactly once. |
| Metrics.DescribeCorrectedRestoresLocks | collector/collector.go:93-126 | The corrected list is `Describe`'s list with the downstream lock descriptor in place of the second SNR entry, and the upstream lock descriptor inserted after the ranging status. Nothing else changes. |
| Collector.LockIndicator | collector/collector.go:154 | The lock gauge is 1 exactly for the status `Locked` and 0 for every other string. |
| Collector.DownstreamObservations | collector/collector.go:149-155 | Four gauges in descriptor order: central frequency (scaled by 10^10), power, SNR, lock. All carry the labels id, channel id, modulation, channel type. |
| Collector.DownstreamWellFormed | collector/collector.go:59-63 | Each downstream gauge supplies exactly as many label values as its descriptor has label names. |
| Collector.OfdmDownstreamObservations | collector/collector.go:156-165 | Seven gauges in descriptor order: start, PLC frequency reported as the end frequency, central, bandwidth (all scaled), then power, SNR and lock. All carry the labels id, channel id, FFT size, channel type. |
| Collector.OfdmDownstreamWellFormed | collector/collector.go:65-72 | Each OFDM downstream gauge fits its descriptor's label names. |
| Collector.UpstreamObservations | collector/collector.go:166-171 | Three gauges: central frequency (scaled), power, and lock read from the lock status. All carry the labels id, channel id, symbol rate, channel type. The ranging-status descriptor is never used. |
| Collector.UpstreamWellFormed | collector/collector.go:74-78 | Each upstream gauge fits its descriptor's label names. |
| Collector.OfdmUpstreamObservations | collector/collector.go:172-180 | Six gauges: start, PLC as end, central, bandwidth (all scaled), power, lock. |
| Collector.OfdmUpstreamWellFormed | collector/collector.go:80-86 | Each OFDM upstream gauge fits its descriptor's label names. |
| Collector.ChannelObservations | collector/collector.go:148-181 | A status record yields 4, 7, 3 and 6 gauges per downstream, OFDM downstream, upstream and OFDM upstream channel. |
| Collector.ChannelObservationsWellFormed | collector/collector.go:148-181 | Every channel gauge fits its descriptor. |
| Collector.DownstreamGaugeAt | collector/collector.go:149-155 | The j-th gauge of the k-th downstream channel sits at 4k + j. |
| Collector.OfdmDownstreamGaugeAt | collector/collector.go:156-165 | The j-th gauge of the k-th OFDM downstream channel sits at 7k + j, after all downstream gauges. |
| Collector.UpstreamGaugeAt | collector/collector.go:166-171 | The j-th gauge of the k-th upstream channel sits at 3k + j, after both downstream tables. |
| Collector.OfdmUpstreamGaugeAt | collector/collector.go:172-180 | The j-th gauge of the k-th OFDM upstream channel sits at 6k + j, after the other three tables. |
| Collector.DownstreamLockGauge | collector/collector.go:154 | Every downstream channel reports a `downstream_locked_bool` gauge, its fourth. |
| Collector.UpstreamLockGauge | collector/collector.go:170 | Every upstream channel reports an `upstream_locked_bool` gauge, its third. |
| Collector.DownstreamLockGaugeIsUndescribed | collector/collector.go:100-103 | The lock gauge of every downstream channel has a descriptor that `Describe` never announces. The corrected list does announce it. |
| Collector.UpstreamLockGaugeIsUndescribed | collector/collector.go:120-122 | The same for the lock gauge of every upstream channel. |
| Collector.StatusObservations | collector/collector.go:144-181 | No channel gauges unless the status fetch succeeded and decoded with `data` present. When it did, the gauges are exactly the channel gauges of that data. All of them fit their descriptors. |
| Collector.LogoutObservations | collector/collector.go:183-190 | The logout report as written: always two gauges, ending with `logout_success` 1. It starts with the logout message gauge exactly on success, valued 1 and labelled with the reply's message, and with `logout_success` 0 on failure. |
| Collector.LogoutFailureReportsBothOutcomes | collector/collector.go:187-190 | A failed logout is reported both as failed (0) and, later, as successful (1). |
| Collector.LogoutObservationsCorrected | collector/collector.go:183-190 | Exactly one `logout_success` gauge, last, whose value is 1 exactly for a successful logout. The message precedes it on success. |
| Collector.IdentityObservations | collector/collector.go:140-142 | Three gauges: user and uid, each 1 and labelled with the reply's user name and uid; then the unlabelled default-password gauge, 1 exactly when the reply's flag is `Yes` and 0 otherwise. |
| Collector.LoginObservations | collector/collector.go:131-139 | A successful login reports the message gauge, 1 and labelled with the reply's message, then `login_success` 1. |
| Collector.SessionObservations | collector/collector.go:131-190 | A scrape after a login with data sends, in this order, the two login gauges, the three identity gauges, the status gauges, and the logout gauges. All are well formed when the logout gauges are. |
| Collector.ScrapeGaugeLayout | collector/collector.go:131-190 | The gauges of a scrape whose login carried data: login gauges at 0-1, identity gauges at 2-4, the status fetch's channel gauges from 5 on, and the logout report last. |
| Collector.ScrapeChannelGaugeAt | collector/collector.go:144-181 | After a login with data, the i-th channel gauge of the status fetch is the scrape's gauge 5 + i, and when the fetch yields data those are exactly that data's channel gauges. |
| Collector.SessionObservationsEndWithLogout | collector/collector.go:183-190 | The logout gauges come last, in the order the logout report lists them. |
| Collector.AfterLogin | collector/collector.go:129-190 | A scrape completes unless the login reply lacked `data`. It makes exactly two requests after the login, the status fetch and the logout, when the login succeeded with `data`, and none otherwise, leaving the login's log as a prefix. |
| Collector.Collect | collector/collector.go:129-191 | Every gauge a scrape sends fits its descriptor, so no `MustNewConstMetric` call panics on a label count. The session stays well threaded. |
| Collector.CollectCorrected | collector/collector.go:129-191 | With the corrected logout report, every gauge of a scrape fits its descriptor, and no gauge but the last is a `logout_success` gauge, so a scrape reports at most one logout outcome. |
| Collector.CorrectedScrapeReportsLogoutLast | collector/collector.go:129-191 | Whatever the login outcome, the corrected scrape sends `logout_success` only as its last gauge: the failed-login pair ends with it, and neither the login, identity nor channel gauges ever use it. |
| Collector.SessionReportsLogoutLast | collector/collector.go:131-190 | The gauges of a session keep `logout_success` last whenever the logout report does. |
| Collector.ChannelObservationsAvoidLogout | collector/collector.go:148-181 | No channel gauge is a `logout_success` gauge. |
| Collector.ScrapeWellFormed | collector/collector.go:129-191 | A scrape is well formed whatever logout report it uses, provided that report is well formed. |
| Collector.LoginFailureShortCircuits | collector/collector.go:130-138 | A failed login ends the scrape without any further request. It reports `login_success` 0 and `logout_success` 0 and nothing else. |
| Collector.MissingLoginDataAbortsScrape | collector/collector.go:139-140 | A successful login without `data` stops the scrape after the login gauges. No status fetch or logout request is made. |
| Collector.ScrapeAlwaysLogsOut | collector/collector.go:144-183 | After a login with data, exactly two more requests are made: the time-stamped status GET, then the logout POST, whatever the status outcome. |
| Collector.ScrapeObservationCount | collector/collector.go:139-190 | After a login with data a scrape sends 7 gauges plus the channel gauges of the status reply. It sends no channel gauges when that reply did not arrive, did not decode, or had no `data`. |
| Collector.ScrapeLogoutGauges | collector/collector.go:183-190 | As written, a scrape's last gauge is `logout_success` 1. The gauge before it is the logout message exactly when the logout reply was accepted, then valued 1 and labelled with that reply's message, and `logout_success` 0 otherwise. |
| Collector.CorrectedScrapeLogoutGauge | collector/collector.go:183-190 | With the fix, the last gauge is `logout_success`, 1 exactly when the logout reply was accepted. The message precedes it when it was. |
| Collector.CorrectedScrapeObservationCount | collector/collector.go:183-190 | With the fix, a scrape sends 7 gauges when the logout was accepted and 6 when it was not, plus the channel gauges. |
| Collector.ScrapeTokenIsLastIssued | collector/api.go:252-256 | After a scrape, the token is the one the modem issued last in any reply, or the initial token if it never issued one. |

## Left out

- HTTP transport, TLS settings, the cookie jar and the client timeout: each request's outcome is the next scripted reply, and a missing one stands for every transport error, including a request that cannot be built.
- JSON decoding: a reply body is given as the records it decodes to plus a validity flag per record; the fields the collector never reads (`intf`, `remoteAddr`, `userAgent`, `httpReferer`) are carried but never used.
- Form encoding (`url.Values.Encode`): a form is the map of its fields.
- PBKDF2 and SHA-256 internals: the derivation is a parameter, assumed only to return keys of the requested length.
- Credentials.GetLoginPasswordStages: states the password in terms of the abstract key derivation, so it cannot name concrete digests.
- Byte strings that are not valid UTF-8: Go strings are byte strings and `[]byte(key)` at `collector/api.go:267` copies whatever bytes they hold, whereas the model's strings are sequences of characters encoded as UTF-8. The model takes the password and the station's salts to be valid UTF-8; salts decoded from JSON always are.
- Numeric.Parse2Float: the result is the exact rational the literal denotes, not the nearest float64; only the overflow threshold is modelled exactly.
- Collector.ScaledReading: multiplies exactly, whereas Go's float64 product rounds and becomes +Inf for readings above about 1.8e298; the gauges carry the exact product.
- Null channel entries: the channel tables are slices of pointers (`collector/api.go:63-68`), so a JSON `null` entry becomes nil and the loops at `collector/collector.go:150`, `157`, `167` and `173` would panic on it. The model's tables hold records, so such an entry cannot occur and the scrape completes.
- Numeric.Parse2FloatOfDecimal: covers readings written as whole digits, a point and fraction digits; exponent forms never survive the filter, and `Inf`/`NaN` spellings lose their letters.
- Logging (`log.Debugf`, `log.Errorf`, the `fmt.Println` of a status error): no effect on the scrape.
- Prometheus objects: descriptors are a datatype, help strings are dropped, and a metric channel is the ordered sequence of observations; `MustNewConstMetric`'s label-count panic is the `WellFormed` predicate, proved to hold.
- Concurrency: the token is a process-wide variable in the source, shared by concurrent scrapes; the model threads it through one sequential session.
- `NewFibertelStation` and `makeTimestamp`: construction of the client and the clock; the clock reading is the `nowMillis` parameter.
- Go's int64 range for the timestamp: `nowMillis` is an unbounded integer.

## Findings

| source | as written | input that shows it | evidently intended | confidence | as-written member | corrected member |
|---|---|---|---|---|---|---|
| collector/collector.go:187-190 | after a failed logout the collector sends `logout_success` 0 and then falls through to send `logout_success` 1 | any scrape whose logout reply is missing, undecodable, or not `ok` | a `return` (or `else`) after the 0 gauge: exactly one `logout_success` gauge, 1 only on success | high; not executed | Collector.LogoutFailureReportsBothOutcomes | Collector.CorrectedScrapeLogoutGauge |
| collector/collector.go:93-126 | `Describe` sends the downstream SNR descriptor twice and never sends the downstream or upstream lock descriptors, although `Collect` emits gauges for both | any status reply with one legacy downstream channel: its fourth gauge has a descriptor `Describe` never announced | `Describe` sends each of the 28 descriptors built by `init` once | high; not executed | Collector.DownstreamLockGaugeIsUndescribed | Metrics.DescribeCorrected |
