# TunnelVision tunnel management core

A Dafny model of the non-UI core of TunnelVision, a Next.js dashboard for IPv6 tunnels on an
Ubuntu host. The model covers four pieces.

- **Simulated tunnel service** (`UbuntuTunnelService`, tunnel_service.dfy). This is a class that
  holds the module-level list of tunnels. Each change first builds an iproute2-style command line and
  passes it to a simulated executor. The executor fails exactly when the line contains `error_test`.
  The class keeps a ghost trace of the command lines it executed, so contracts can say which commands
  ran and in what order.
- **Form validation and server actions** (`TunnelValidation` in validation.dfy, `TunnelActions` in
  actions.dfy). The zod schema becomes a function from the raw form to the validated data or to a
  field→issues map. The actions validate, call the service, and turn its results and exceptions
  into the records the forms display.
- **Mock store** (`MockDb`, mock_db.dfy). This is a second, simpler in-memory list store. It runs no
  commands.
- **Route guard** (`Middleware`, middleware.dfy). A pure decision from the request path and the
  authentication cookie to "pass" or "redirect".

Shared pieces: the records of `src/types/index.ts` (`TunnelTypes`), the `findIndex`/`find`/`filter`
searches both stores use (`TunnelLists`), string search, splitting and decimal numerals (`Text`),
and `Option`/`Outcome` (`Wrappers`). `Outcome` stands for a JavaScript call that either returns a value
or throws.

The service and the store change their lists in place, so they are classes whose methods state the
whole new list. Those contracts use `old` and are the service's real specification. The validator,
the command builders, the merge and the route guard are pure functions with lemmas. The actions are
methods only because they call the stateful service. They keep no state of their own.

What the code does, and so what the model does:

- Creating a tunnel runs no address, MTU or link-up step, and nothing is rolled back.
- No store checks that interface names are unique.
- New tunnels start `inactive`.
- An update that fails after its teardown leaves the old record in place.
- Only the `6to4` type and a legacy `ipv6` type get a creation command. The `ipip6` and `gre6` types
  that the form accepts run only ` && sudo netplan apply`.

## Model

| member | source | states |
|---|---|---|
| TunnelTypes.NewTunnel | src/services/ubuntuTunnelService.ts:73-77 | a created record has the caller's fresh id, status `inactive`, and exactly the creation data in its other fields |
| TunnelTypes.Merge | src/services/ubuntuTunnelService.ts:109 | `{...old, ...data}` with the old status kept: the id and status never change |
| TunnelTypes.MergeNothing | src/types/index.ts:14 | merging an update with no keys leaves the record unchanged |
| TunnelTypes.MergeComplete | src/lib/mock-db.ts:57 | merging a complete update gives the record that data would create, with the old id and status |
| TunnelLists.FindIndex | src/services/ubuntuTunnelService.ts:85 | `findIndex`: -1 exactly when no record has the id, else the first index holding it |
| TunnelLists.Find | src/services/ubuntuTunnelService.ts:138 | `find`: none exactly when no record has the id; a found record is in the list and has the id |
| TunnelLists.FindAtFindIndex | src/lib/mock-db.ts:39 | `find` returns the element at the index `findIndex` reports |
| TunnelLists.RemoveById | src/services/ubuntuTunnelService.ts:131 | `filter`: a record survives exactly when it was in the list and has another id |
| TunnelLists.RemoveByIdConcat | src/lib/mock-db.ts:63 | the filter distributes over concatenation, so the kept records stay in order |
| TunnelLists.RemoveByIdAbsent | src/lib/mock-db.ts:63 | with no record holding the id, the filter returns the list unchanged |
| TunnelLists.RemoveByIdShrinks | src/lib/mock-db.ts:62-64 | the filter shortens the list exactly when some record holds the id |
| TunnelLists.CountInterface | src/lib/mock-db.ts:43-48 | the number of records using an interface name is zero exactly when none uses it |
| TunnelLists.CountInterfaceAppend | src/services/ubuntuTunnelService.ts:73-78 | appending a record adds one use of its interface name whatever the list already holds |
| MockDb.AddKeepsDuplicateInterface | src/lib/mock-db.ts:43-48 | adding a record whose interface name is already in use leaves two or more records with that name: duplicates are not rejected |
| Text.Contains | src/services/ubuntuTunnelService.ts:37 | `includes`: true exactly when the text occurs at some position |
| UbuntuTunnelService.Interpolate | src/services/ubuntuTunnelService.ts:65 | a template literal renders a present string as itself and a missing one as `undefined` |
| UbuntuTunnelService.AddPrefix | src/services/ubuntuTunnelService.ts:60-67 | the creation command is empty exactly for `ipip6`/`gre6`; otherwise it starts `sudo ip tunnel add <if> mode ` |
| UbuntuTunnelService.AddCommand | src/services/ubuntuTunnelService.ts:68 | every creation command ends with ` && sudo netplan apply`, and is nothing else exactly for `ipip6`/`gre6` |
| UbuntuTunnelService.RemoveCommand | src/services/ubuntuTunnelService.ts:93 | the teardown command is `sudo ip tunnel del ` followed by exactly the old interface name |
| UbuntuTunnelService.DeleteCommand | src/services/ubuntuTunnelService.ts:122 | the delete command is the teardown command followed by the netplan step |
| UbuntuTunnelService.LinkCommand | src/services/ubuntuTunnelService.ts:143-147 | the link command starts `sudo ip link set dev <if>`, then ` up` for active and ` down` otherwise, then the netplan step |
| UbuntuTunnelService.NetplanAloneSucceeds | src/services/ubuntuTunnelService.ts:37 | the netplan step alone never contains `error_test`, so it always succeeds |
| UbuntuTunnelService.SeedTunnels | src/services/ubuntuTunnelService.ts:11-29 | the seed records have distinct ids and interface names, and none has the fields creation data requires |
| MockDb.SeedTunnels | src/lib/mock-db.ts:3-30 | the seed records have distinct ids and interface names, and none has the fields creation data requires |
| UbuntuTunnelService.Simulate | src/services/ubuntuTunnelService.ts:32-41 | the simulated executor succeeds exactly when `error_test` occurs nowhere in the command |
| UbuntuTunnelService.TemplateLessAddSucceeds | src/services/ubuntuTunnelService.ts:60-68 | for `ipip6`/`gre6` the creation command is just ` && sudo netplan apply` and it always succeeds |
| UbuntuTunnelService.MarkedNameFails | src/services/ubuntuTunnelService.ts:37-38 | any command that embeds a marked interface name fails |
| UbuntuTunnelService.MarkedInterfaceDeleteFails | src/services/ubuntuTunnelService.ts:122 | the teardown and delete commands of a marked interface name fail |
| UbuntuTunnelService.MarkedInterfaceLinkFails | src/services/ubuntuTunnelService.ts:143-147 | the link up/down command of a marked interface name fails |
| UbuntuTunnelService.MarkedInterfaceAddFails | src/services/ubuntuTunnelService.ts:61-68 | the `6to4` and legacy `ipv6` creation commands of a marked interface name fail |
| UbuntuTunnelService.TunnelService.constructor | src/services/ubuntuTunnelService.ts:11-29 | the service starts with the two seed records and no command executed |
| UbuntuTunnelService.TunnelService.Execute | src/services/ubuntuTunnelService.ts:32-41 | appends the command to the trace and returns the executor's result |
| UbuntuTunnelService.TunnelService.GetTunnels | src/services/ubuntuTunnelService.ts:44-49 | returns the whole list in order |
| UbuntuTunnelService.TunnelService.GetTunnelById | src/services/ubuntuTunnelService.ts:51-55 | returns the first record with the id; throws (JSON.parse of undefined) exactly when none has it |
| UbuntuTunnelService.TunnelService.AddTunnel | src/services/ubuntuTunnelService.ts:57-81 | runs exactly the type's creation command plus netplan; on success appends one new inactive record, adding one use of its interface name; on failure throws "Failed to add tunnel: …" with the list unchanged |
| UbuntuTunnelService.TunnelService.UpdateTunnel | src/services/ubuntuTunnelService.ts:83-112 | unknown id: null, no command, list unchanged; else the teardown, then the merged record's creation command; success replaces only the found index with the merge; failure throws with the list unchanged |
| UbuntuTunnelService.TunnelService.DeleteTunnel | src/services/ubuntuTunnelService.ts:114-134 | unknown id: false and nothing changes; else true, the delete command runs and every record with the id goes, even when the command failed |
| UbuntuTunnelService.TunnelService.SetTunnelStatus | src/services/ubuntuTunnelService.ts:136-155 | unknown id: false; else the link up/down command always runs; success changes only the first match's status; failure throws with the list unchanged |
| MockDb.MockStore.constructor | src/lib/mock-db.ts:3-30 | the store starts with the three seed records |
| MockDb.MockStore.GetTunnels | src/lib/mock-db.ts:33-36 | returns the whole list in order |
| MockDb.MockStore.GetTunnelById | src/lib/mock-db.ts:37-40 | returns the first record with the id; throws exactly when none has it |
| MockDb.MockStore.AddTunnel | src/lib/mock-db.ts:41-50 | appends exactly one new inactive record with the data and the fresh id, adding one use of its interface name; earlier records are untouched |
| MockDb.MockStore.UpdateTunnel | src/lib/mock-db.ts:51-59 | unknown id: null and the list unchanged; else only the found index becomes `{...old, ...data}` |
| MockDb.MockStore.DeleteTunnel | src/lib/mock-db.ts:60-65 | the list becomes the filter; returns true exactly when it shrank, which is exactly when some record had the id |
| TunnelValidation.Utf16Length | src/lib/actions.ts:14 | a JavaScript length lies between the number of characters and twice that |
| TunnelValidation.Utf16LengthChar | src/lib/actions.ts:14 | one character counts one, or two when it lies outside the Basic Multilingual Plane |
| TunnelValidation.Utf16LengthConcat | src/lib/actions.ts:14 | the length of a concatenation is the sum of the lengths |
| TunnelValidation.Utf16LengthZero | src/lib/actions.ts:16-17 | a JavaScript length is below 1 exactly for the empty string |
| TunnelValidation.ParseTunnelType | src/lib/actions.ts:15 | the enum never yields the legacy `ipv6` type |
| TunnelValidation.PrefixUpTo32Numerals | src/lib/actions.ts:10 | the `0..32` alternation accepts exactly the numerals of 0 to 32 |
| TunnelValidation.PrefixUpTo128Sound | src/lib/actions.ts:10 | every text the `0..128` alternation accepts is the numeral of a number up to 128 |
| TunnelValidation.PrefixUpTo128Complete | src/lib/actions.ts:10 | the numeral of every number up to 128 is accepted by the `0..128` alternation |
| TunnelValidation.PrefixUpTo128Numerals | src/lib/actions.ts:10 | the `0..128` alternation accepts exactly the numerals of 0 to 128 |
| TunnelValidation.V4CidrSound | src/lib/actions.ts:10 | text matching the first alternative is four 1–3 digit groups and a prefix up to 32 (no octet range check) |
| TunnelValidation.V4CidrComplete | src/lib/actions.ts:10 | four 1–3 digit groups and a prefix up to 32 always match the first alternative |
| TunnelValidation.V6CidrSound | src/lib/actions.ts:10 | text matching the second alternative is a non-empty hex-and-colon run and a prefix up to 128 |
| TunnelValidation.V6CidrComplete | src/lib/actions.ts:10 | a non-empty hex-and-colon run and a prefix up to 128 always match the second alternative |
| TunnelValidation.IpWithCidrForms | src/lib/actions.ts:9-10 | one of the two alternatives matches exactly when the text has one of the two documented forms |
| TunnelValidation.MatchesIpWithCidr | src/lib/actions.ts:10 | `ipWithCidrRegex.test` accepts exactly the two documented forms |
| TunnelValidation.TrimStart | src/lib/actions.ts:20 | the text `parseInt` reads is no longer than the input and does not start with white space |
| TunnelValidation.TrimStartDropsWhitespace | src/lib/actions.ts:20 | `parseInt` starts reading right after the whole run of leading white space: what it drops is all white space, and what remains is the rest of the input |
| TunnelValidation.ParseDecimalInt | src/lib/actions.ts:20 | `parseInt` gives a number only when the text has a digit, and a negative one only when it has a minus sign |
| TunnelValidation.LeadingDigits | src/lib/actions.ts:20 | `parseInt` reads the longest run of leading digits |
| TunnelValidation.TrimStartWhitespace | src/lib/actions.ts:20 | white space before the number is skipped entirely |
| TunnelValidation.LeadingDigitsOf | src/lib/actions.ts:20 | digits followed by a non-digit are read up to the non-digit |
| TunnelValidation.ParseDecimalIntSkipsWhitespace | src/lib/actions.ts:20 | `parseInt` gives the same value with or without leading white space |
| TunnelValidation.ParseDecimalIntReadsNumeral | src/lib/actions.ts:20 | `parseInt` of a numeral followed by anything not a digit is that number |
| TunnelValidation.ParseDecimalIntReadsNegative | src/lib/actions.ts:20 | `parseInt` of a minus sign and a numeral is the negative number |
| TunnelValidation.MtuIssues | src/lib/actions.ts:19-22 | the mtu entry has at most one issue, and none exactly when it is absent, empty, or a `parseInt` value in 68..65535 |
| TunnelValidation.MtuNumeral | src/lib/actions.ts:19-22 | an mtu entry starting with a numeral passes exactly when the number is in 68..65535, trailing text ignored, and that number is the validated MTU |
| TunnelValidation.FieldErrors | src/lib/actions.ts:58-60 | the error map has a key exactly for the fields with issues, each holding its issues |
| TunnelValidation.Aborted | src/lib/actions.ts:13-43 | when the base schema fails hard, some field of the base schema has an issue |
| TunnelValidation.AbortedReported | src/lib/actions.ts:26 | when the base schema fails hard (so the refinement is skipped), some field still has an issue |
| TunnelValidation.Validate | src/lib/actions.ts:13-43 | valid exactly when the error map is empty; invalid carries that map; valid data copies every field, the parsed type and the MTU as `MtuValue` preprocesses it (:20); the refinement's endpoint issues come from `EndpointIssues` and `RefinementIssues` (:26-43) |
| TunnelValidation.EndpointsPass | src/lib/actions.ts:26-43 | both endpoints pass the refinement exactly when 6to4 has IPv4 endpoints and ipip6/gre6 have IPv6 endpoints |
| TunnelValidation.ValidateAcceptsExactly | src/lib/actions.ts:13-43 | the schema accepts a form exactly when every field meets its rule and the endpoints fit the type |
| TunnelValidation.NameRule | src/lib/actions.ts:14 | `name` has an error exactly when missing or shorter than 3 |
| TunnelValidation.TypeRule | src/lib/actions.ts:15 | `type` has an error exactly when missing or not one of `6to4`, `ipip6`, `gre6` |
| TunnelValidation.InterfaceNameRule | src/lib/actions.ts:23 | `interfaceName` has an error exactly when missing or not a non-empty run of `[A-Za-z0-9_-]` |
| TunnelValidation.MtuRule | src/lib/actions.ts:19-22 | `mtu` has an error exactly when it is neither absent/empty nor a `parseInt` value in 68..65535 |
| TunnelValidation.AssignedIpRule | src/lib/actions.ts:18 | `assignedIp` has an error exactly when missing or in neither accepted form |
| TunnelValidation.LocalIpRule | src/lib/actions.ts:16-41 | `localIp` has an error exactly when missing or empty, or the refinement runs and its family does not fit the type |
| TunnelValidation.RemoteIpRule | src/lib/actions.ts:17-41 | `remoteIp` follows the same rule as `localIp` |
| TunnelActions.StatusText | src/lib/actions.ts:129 | the status in the toggle message is `active`, `inactive` or `error`, one text per status |
| TunnelActions.TargetStatus | src/lib/actions.ts:123 | the target is never `error`; it is `inactive` exactly when the current status is `active` |
| TunnelActions.ToggleTwice | src/lib/actions.ts:123 | toggling twice from `active` or `inactive` returns to the start |
| TunnelActions.AsUpdateData | src/lib/actions.ts:90 | the validated data as an update: every field present, `mtu` present exactly when the form had an mtu entry |
| TunnelActions.FormUpdateRewritesRecord | src/lib/actions.ts:90-93 | an update from a form with an mtu entry rewrites every field but id and status |
| TunnelActions.AddTunnelAction | src/lib/actions.ts:54-75 | invalid form: the error map and no service call; else the service's add, with success or "Error adding tunnel: …" |
| TunnelActions.UpdateTunnelAction | src/lib/actions.ts:77-103 | empty id or invalid form: no service call; unknown id: "Tunnel not found or failed to update."; else the teardown and the merged creation command run, with success or "Error updating tunnel: …" |
| TunnelActions.DeleteTunnelAction | src/lib/actions.ts:105-118 | empty id: no service call; else success exactly when the id was known, the delete command runs exactly then, and the list becomes the filter |
| TunnelActions.ToggleTunnelStatusAction | src/lib/actions.ts:120-136 | empty id: no service call; unknown id: no command and "Failed to change tunnel status."; else the link command for the target runs; success reports the new status, failures become messages |
| Middleware.IsAuthenticated | middleware.ts:8 | a request is authenticated only when it carries the `tunnelvision_auth` cookie with a non-empty value |
| Middleware.SignedInRouting | middleware.ts:8-29 | a request with a non-empty `tunnelvision_auth` cookie reaches `/dashboard` pages and is redirected from `/login` pages to `/dashboard` |
| Middleware.AnonymousRouting | middleware.ts:8-29 | a request without that cookie, or with an empty one, is redirected from `/dashboard` pages to `/login` and reaches `/login` pages |
| Middleware.OtherCookiesIgnored | middleware.ts:8 | setting or dropping any other cookie never changes whether the request is authenticated |
| Middleware.Route | middleware.ts:6-39 | a redirect goes to `/dashboard` exactly when the request is authenticated, and otherwise to `/login` |
| Middleware.LoginPageRule | middleware.ts:10-20 | on a `/login`-prefixed path an authenticated request goes to `/dashboard` and an anonymous one passes |
| Middleware.DashboardPageRule | middleware.ts:11-29 | on a `/dashboard`-prefixed path an anonymous request goes to `/login` and an authenticated one passes |
| Middleware.LoginIsNotDashboard | middleware.ts:10-11 | no path has both prefixes, so the two branches never overlap |
| Middleware.OtherPathsPass | middleware.ts:31-38 | every other path passes whatever the cookie, since the redirect there is commented out |
| Middleware.GuardSeparatesAudiences | middleware.ts:13-29 | an anonymous request never passes to a dashboard page and an authenticated one never passes to a login page |
| Middleware.EmptyCookieIsAnonymous | middleware.ts:8 | an empty auth cookie value routes like no auth cookie |

## Left out

- Delays, `Math.random`, logging, and the async/Promise plumbing. Every operation is one sequential call.
- What the commands do to the operating system. Nothing is executed; the executor is the `error_test` test.
- `Date.now()` id generation. The fresh id is a parameter, and no uniqueness is promised.
- The `JSON.parse(JSON.stringify(…))` copies. Records are values, so a copy is the value itself.
  When no record has the id, `getTunnelById` throws, because `JSON.parse(undefined)` throws. The model
  returns `Threw(InvalidJson)` and does not model the engine's message text.
- zod's `z.string().ip({version})` checks are library code. They are parameters (`AddressRecognizers`)
  that the model takes as given.
- zod's own issue texts (a missing string, an invalid enum value, NaN, the bounds) are not written out.
  The model records their kind, plus the bound for the two bound issues. The schema's own messages are
  verbatim.
- zod's issue order inside a field and the rest of the `flatten()` output (`formErrors`) are not
  modelled. Only the field→issues map is.
- TunnelValidation.MtuIssues: a digit run long enough for `parseInt` to return `Infinity` or, after a
  minus sign, `-Infinity` also draws zod's "not an integer" issue. The model reports only the bound
  issue: the upper bound for `Infinity`, the lower bound for `-Infinity`. Acceptance is the same
  either way.
- Form entries that are files rather than strings, and form keys the schema does not know (zod drops
  them), are not modelled.
- `getTunnelsAction` and `getTunnelByIdAction` only forward to the service, so they have no members
  of their own. The service's `GetTunnels` and `GetTunnelById` are their model.
- TunnelActions.DeleteTunnelAction: the "Error deleting tunnel" branch is absent. The service's
  delete never throws, so that branch cannot run.
- `revalidatePath`, `cookies()`, `redirect`, `NextResponse` and the `config.matcher` pattern are
  framework calls. The guard's answer is a `Decision` value.
- src/lib/auth.ts is not part of this model. It compares two hard-coded strings and does cookie I/O,
  and its cookie test is the one `Middleware.IsAuthenticated` models.
- Cookie attributes (expiry, path, flags) are not modelled. The guard sees cookies as a name-to-value map.
- The React components and pages are not part of this model.
- Characters are Unicode code points. `Utf16Length` counts characters outside the Basic
  Multilingual Plane twice. Lone surrogates are not modelled.
