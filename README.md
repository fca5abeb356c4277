# Premium access for a portfolio site, modelled in Dafny

The site is an ASP.NET Core server with a Blazor WebAssembly client. Users register and log in
and get a signed JSON Web Token (JWT). Free resources are listed for everyone. Premium resources
are listed only for callers who satisfy the "PremiumPolicy": the "Premium" role, or the
convenience claim `HasPremium` = `"true"`.

A signed-in user asks for premium access. This creates a pending request. An administrator
lists the requests and approves or denies them. Approval puts the user in the "Premium" role.
The user then refreshes the token to receive the new role claims. A demo purchase and an
administrator grant add the role directly.

The model is split into modules:

- `Entities`: the persisted records.
- `AuthDtos`: the auth request records and their validation rules.
- `Security`: claims, principals, tokens, token validation and the authorization verdict.
- `Store`: the identity store and the database as one `Backend` class. Its fields are the
  tables, and its methods update them in place.
- `AuthController`, `PurchaseController`, `ResourcesController`, `AdminController`: the four
  controllers.
- `ClientAuth`: the client's authentication state provider, as a class over the browser
  storage, the HTTP bearer header and the list of published states.
- `Base64`: the standard base64 decoder the client calls and the base64url encoding of token
  segments.
- `Text`: the string functions the code relies on.
- `Scenario`: the premium flow end to end.

Environment inputs are parameters of the model:

- the clock (`now`, whole seconds);
- the id the identity store gives a new user;
- the e-mail address check, the password hasher and the password check;
- the JSON reader of the client (`parseJson`).

## Model

| member | source | states |
|---|---|---|
| Entities.NewResourceItem | Server/Data/Entities/ResourceItem.cs:5-13 | a new resource has an empty title and url and is not premium |
| Entities.StatusOrder | Server/Data/Entities/ResourceItem.cs:15 | the statuses have the distinct values Pending 0 < Approved 1 < Denied 2; distinct statuses have distinct names |
| Entities.NewPremiumRequest | Server/Data/Entities/ResourceItem.cs:17-27 | a new request is Pending with no reviewer and no review time, and carries the given id, user, email, time and notes |
| AuthDtos.LoginValidation | Server/Auth/Dtos.cs:5-12 | a login body is valid iff the email is non-blank and an address and the password is non-blank and at least 8 characters |
| AuthDtos.RegisterValidation | Server/Auth/Dtos.cs:14-24 | a registration body is valid iff the login rules hold and the display name is absent or at most 64 characters |
| AuthDtos.ShortPasswordRejected | Server/Auth/Dtos.cs:10-11 | a password shorter than 8 characters is reported as too short |
| Security.FindFirstValue | Server/Controllers/AuthController.cs:87-88 | the value of the first claim whose type matches ignoring case; none iff no claim matches |
| Security.ValuesOfTypeAppend | Server/Controllers/AuthController.cs:89 | the role values of a concatenation are the values of each part, in order |
| Security.ValuesOfTypeMembers | Server/Program.cs:61-64 | a value is among the values of a claim type iff the principal has a claim of that type with that value |
| Security.PremiumPolicySignals | Server/Program.cs:61-64 | the exact role "Premium" or the claim HasPremium="true" satisfies the policy; "premium" as role or "True" as value does not; anonymous does not |
| Security.CreateToken | Server/Auth/JwtTokenService.cs:20-31 | an issued token carries exactly the claims, is valid from issue and expires twelve hours later |
| Security.Authenticate | Server/Program.cs:44-56 | a request is authenticated iff it carries a token the validator accepts |
| Security.IssuedTokenWindow | Server/Program.cs:44-56 | an issued token is accepted exactly from two minutes before issue to two minutes after its twelve hours |
| Security.ForeignTokenRejected | Server/Program.cs:46-51 | a token with another key, issuer or audience gives the anonymous principal |
| Security.BearerNameIsUserId | Server/Program.cs:55 | the server's identity name is the NameIdentifier claim, i.e. the user id |
| Security.ReceivedClaims | Server/Program.cs:42-57 | the bearer handler keeps every claim's value and position and renames its type by the inbound claim-type map |
| Security.InboundTypes | Server/Program.cs:42-57 | the inbound map renames the short "email" to the long email type and keeps the long NameIdentifier, Name and Role types, "HasPremium" and "displayName" |
| Security.ReceivedAppend | Server/Program.cs:42-57 | the received claims of a concatenation are the received claims of each part |
| Security.BearerPrincipal | Server/Program.cs:42-57 | the server's principal is authenticated, holds the received claims, is named by the NameIdentifier type and takes roles from the Role type |
| Security.FirstValueAt | Server/Controllers/AuthController.cs:87-88 | the first claim of a type gives the value that `FindFirstValue` returns |
| Security.Authorize | Server/Program.cs:37-41 | allow iff the requirement holds; challenge iff it fails for an unauthenticated caller; otherwise forbid |
| Security.AnonymousIsChallenged | Server/Program.cs:37-41 | every protected endpoint challenges the anonymous caller |
| Security.RoleMatchIsExact | Server/Program.cs:54 | a role requirement holds iff some claim of the role claim type has exactly that value |
| Store.PasswordValidation | Server/Program.cs:22-24 | a password passes iff it has at least 8 characters, is not blank and has an upper-case letter, a lower-case letter and a digit |
| Store.ExamplePasswords | Server/Program.cs:22-24 | an all-lower-case password such as "longenough1" is refused only for its missing upper-case letter; "LongEnough1" passes every rule |
| Store.Backend.FindById | Server/Controllers/AuthController.cs:100 | the user with that id, or none iff no user has it |
| Store.Backend.FindByEmail | Server/Controllers/AuthController.cs:39 | a user whose normalised email matches, or none iff no user's does |
| Store.Backend.CurrentUser | Server/Controllers/PurchaseController.cs:26 | the user named by the caller's NameIdentifier claim; none iff the claim is missing or no user has that id |
| Store.Backend.GetRoles | Server/Controllers/AuthController.cs:118 | the listed roles are exactly the roles the user holds |
| Store.Backend.NoRolesForUnknownUser | Server/Controllers/AuthController.cs:58-59 | a user id that no user has holds no role |
| Store.Backend.CreateErrors | Server/Program.cs:22-25 | creation succeeds only if the password passes and no other user has the email |
| Store.Backend.Create | Server/Controllers/AuthController.cs:50 | the user is appended iff there are no creation errors, and the table stays valid |
| Store.Backend.AddToRole | Server/Controllers/PurchaseController.cs:28-29 | succeeds iff the user did not hold the role; afterwards the user holds it |
| Store.Backend.RequestIdsBelowNext | Server/Data/Entities/ResourceItem.cs:19 | every stored request id is positive and below the next id |
| Store.Backend.AddRequest | Server/Controllers/PurchaseController.cs:56-65 | appends a new pending request under the next id and advances the id |
| Store.Backend.AddResource | Server/Controllers/AdminController.cs:24-26 | appends the resource under the next id and advances the id |
| Store.Backend.SaveRequest | Server/Controllers/PurchaseController.cs:133-139 | saving a reviewed request under its own id replaces only that request, keeps the store valid and keeps every id's position |
| Store.ReplaceKeepsIds | Server/Controllers/PurchaseController.cs:133-138 | replacing a request by one with the same id keeps the ids of the table |
| Store.FirstIndexByIds | Server/Controllers/PurchaseController.cs:127 | the position found for an id depends only on the ids of the table |
| Store.Backend.FindRequest | Server/Controllers/PurchaseController.cs:127 | the position of the request with that id, or none iff there is none |
| AuthController.AuthGates | Server/Controllers/AuthController.cs:83-95 | register and login are open; me and refresh are allowed iff the caller is authenticated |
| AuthController.IssueJwt | Server/Controllers/AuthController.cs:108-126 | the token carries the base claims, one role claim per current role, and HasPremium when some role is "Premium" |
| AuthController.IssuedClaims | Server/Controllers/AuthController.cs:110-123 | four base claims, then the role claims in role order, then at most one premium claim |
| AuthController.BaseClaimTypes | Server/Controllers/AuthController.cs:110-116 | the base claims contain no role claim and no HasPremium claim |
| AuthController.IssuedName | Server/Controllers/AuthController.cs:112-113 | the token's identity name is the user id; the Name claim is the user name, falling back to the email, then the id |
| AuthController.IssuedRoleValues | Server/Controllers/AuthController.cs:118-120 | the role values of an issued token are exactly the user's roles, in order |
| AuthController.IssuedPremiumValues | Server/Controllers/AuthController.cs:122-123 | the HasPremium values are ["true"] iff some role is "Premium" ignoring case, else none |
| AuthController.IssuedPolicy | Server/Controllers/AuthController.cs:122-123 | an issued token satisfies the premium policy iff some role is "Premium" ignoring case |
| AuthController.ReceivedIssuedClaims | Server/Controllers/AuthController.cs:108-126 | the server receives an issued token's base claims with "email" renamed to the long email type, then its role and premium claims unchanged |
| AuthController.ReceivedValues | Server/Controllers/AuthController.cs:118-123 | the received role values are exactly the roles, in order; the received HasPremium values are ["true"] iff some role is "Premium" ignoring case |
| AuthController.ClaimListValues | Server/Controllers/AuthController.cs:110-123 | base claims without role or HasPremium claims, followed by the role and premium claims, have exactly the roles as role values and ["true"] as HasPremium values iff a role is "Premium" |
| AuthController.PolicyFromValues | Server/Program.cs:61-64 | a principal whose role values are the roles and whose HasPremium values are ["true"] exactly when a role is "Premium" satisfies the policy iff a role is "Premium" |
| AuthController.SignedIn | Server/Controllers/AuthController.cs:78-79 | the answer carries a token with the user's current roles, the stored email and display name |
| AuthController.NewUser | Server/Controllers/AuthController.cs:43-48 | user name and email are the request email; a blank display name is stored as none |
| AuthController.Register | Server/Controllers/AuthController.cs:33-61 | invalid body iff a rule fails; conflict iff the email exists; bad request iff creation fails, with the joined descriptions; otherwise the user is added and gets a token with no roles; nothing else changes |
| AuthController.Login | Server/Controllers/AuthController.cs:65-80 | invalid body iff a rule fails; the same InvalidCredentials answer for an unknown email and a wrong password; otherwise a token for the stored user |
| AuthController.Me | Server/Controllers/AuthController.cs:85-90 | the email is the value of the first "email" claim, else of the first identity-name claim, else ""; the display name is the first "displayName" value, else none; a value is among the roles iff the principal has a role claim with that value |
| AuthController.NoShortEmail | Server/Program.cs:42-57 | no claim the server receives from an issued token has the short type "email"; the claim at position 2 is the first of the long email type and the one at 3 the first "displayName" |
| AuthController.IssuedDisplay | Server/Controllers/AuthController.cs:110-116 | the received first "displayName" value is the display name, else the email, else ""; the first long-email value is the email or "" |
| AuthController.MeOfIssuedToken | Server/Controllers/AuthController.cs:85-90 | for the principal rebuilt from an issued token: the email is the user id, the display name is the stored display name or email or "", and the roles are exactly the issued roles |
| AuthController.MeCorrected | Server/Controllers/AuthController.cs:85-90 | reads the email from the first claim of the long email type when there is one; the display name, the roles and otherwise the email are as in `Me` |
| AuthController.MeCorrectedOfIssuedToken | Server/Controllers/AuthController.cs:85-90 | for the principal rebuilt from an issued token the corrected reading reports the stored email, or "" |
| AuthController.Refresh | Server/Controllers/AuthController.cs:95-105 | unauthorized iff the NameIdentifier is missing, empty or unknown; otherwise a token with the roles held now |
| PurchaseController.PurchaseGates | Server/Controllers/PurchaseController.cs:92-93 | the user actions need authentication; listing and reviews need exactly the Admin role, and others are forbidden; anonymous callers are challenged |
| PurchaseController.LatestRequest | Server/Controllers/PurchaseController.cs:48-51 | none iff the user has no request; else one of the user's requests with the highest id |
| PurchaseController.LatestAfterAppend | Server/Controllers/PurchaseController.cs:56-65 | a request appended with a higher id becomes its user's latest |
| PurchaseController.LatestOfOthers | Server/Controllers/PurchaseController.cs:48-51 | another user's new request does not change a user's latest |
| PurchaseController.RequestPremium | Server/Controllers/PurchaseController.cs:38-67 | unauthorized for an unknown caller; "Approved" for a premium user; "Pending" with no new record when the latest request is pending; otherwise a new pending request, which becomes the latest |
| PurchaseController.AddPendingRequest | Server/Controllers/PurchaseController.cs:56-65 | the new request is appended under the next id and becomes the user's latest request, which is pending |
| PurchaseController.RequestPremiumTwice | Server/Controllers/PurchaseController.cs:47-54 | asking twice gives the same answer twice and creates at most one request; when the first call creates one, exactly one is added and both answers are "Pending"; otherwise the table is unchanged |
| PurchaseController.MyRequest | Server/Controllers/PurchaseController.cs:72-88 | unauthorized iff the caller is unknown; "Approved" for a premium user; "None" iff there is no request; else the latest request's status |
| PurchaseController.BoundStatus | Server/Controllers/PurchaseController.cs:94 | an absent query is "Pending"; a blank one is null |
| PurchaseController.ParseStatusFilter | Server/Controllers/PurchaseController.cs:96-102 | selects a status iff the value lower-cased equals its name lower-cased; anything else lists all |
| PurchaseController.ParseStatusName | Server/Controllers/PurchaseController.cs:96-102 | every status name in any letter case selects its status; the default selects Pending; an empty value selects all |
| PurchaseController.FilterByStatus | Server/Controllers/PurchaseController.cs:104-105 | keeps exactly the selected requests, as often as they occur |
| PurchaseController.Insert | Server/Controllers/PurchaseController.cs:107-109 | insertion adds exactly one element |
| PurchaseController.InsertOrdered | Server/Controllers/PurchaseController.cs:107-109 | insertion keeps a sequence in listing order |
| PurchaseController.SortForListing | Server/Controllers/PurchaseController.cs:107-109 | sorting is a permutation |
| PurchaseController.SortOrdered | Server/Controllers/PurchaseController.cs:107-109 | the sorted requests are status ascending, then newest first |
| PurchaseController.ListingMembers | Server/Controllers/PurchaseController.cs:104-109 | the sorted selection holds exactly the selected requests |
| PurchaseController.ListingComplete | Server/Controllers/PurchaseController.cs:104-117 | every selected request has its row in the listing |
| PurchaseController.ListingSound | Server/Controllers/PurchaseController.cs:104-117 | every row of the listing is the row of a selected request |
| PurchaseController.ListingRows | Server/Controllers/PurchaseController.cs:104-117 | one row per selected request, and every row is a selected request's row |
| PurchaseController.ListingOrder | Server/Controllers/PurchaseController.cs:107-116 | the rows are in listing order by status name, then creation time descending |
| PurchaseController.InsertRows | Server/Controllers/PurchaseController.cs:107-116 | inserting a request into the listing adds exactly its row, as a multiset |
| PurchaseController.SortRows | Server/Controllers/PurchaseController.cs:107-116 | sorting for the listing keeps the multiset of rows |
| PurchaseController.Requests | Server/Controllers/PurchaseController.cs:94-120 | one row per request the filter selects, no other rows, in listing order; the rows are the selected requests' rows rearranged (the same multiset) |
| PurchaseController.Review | Server/Controllers/PurchaseController.cs:135-137 | a review sets status, time and reviewer and keeps every other field |
| PurchaseController.Reviewed | Server/Controllers/PurchaseController.cs:133-139 | only the reviewed request changes, and only if its status differs; afterwards it has the new status |
| PurchaseController.ReviewIdempotent | Server/Controllers/PurchaseController.cs:133-139 | reviewing twice to the same status is reviewing once |
| PurchaseController.Approve | Server/Controllers/PurchaseController.cs:125-146 | NotFound for an unknown request; NotFound("User missing") for a missing user; both change nothing; otherwise the request is approved if it was not, and the user holds the Premium role |
| PurchaseController.Deny | Server/Controllers/PurchaseController.cs:151-164 | NotFound for an unknown request; otherwise the request is denied if it was not; roles are untouched |
| PurchaseController.ApproveTwice | Server/Controllers/PurchaseController.cs:133-143 | a second approval gives the same answer and leaves the first review in place |
| PurchaseController.ApproveThenDeny | Server/Controllers/PurchaseController.cs:125-164 | denial after approval keeps the role, so my-request still answers "Approved" |
| PurchaseController.DemoPurchase | Server/Controllers/PurchaseController.cs:24-31 | unauthorized for an unknown caller; otherwise the caller holds Premium afterwards; a caller who already held it gets the role error |
| ResourcesController.ToDto | Server/Controllers/ResourcesController.cs:19-20 | the transfer record copies all four fields |
| ResourcesController.DtoRoundTrip | Server/Controllers/ResourcesController.cs:19-20 | record and transfer record convert into each other without loss |
| ResourcesController.Tier | Server/Controllers/ResourcesController.cs:19 | keeps exactly the resources of the tier, as often as they occur |
| ResourcesController.TierMembers | Server/Controllers/ResourcesController.cs:19 | a resource is in a tier iff it is in the table with that flag |
| ResourcesController.TiersPartition | Server/Controllers/ResourcesController.cs:16-33 | the free and premium tiers together are the table |
| ResourcesController.GetPublic | Server/Controllers/ResourcesController.cs:16-23 | lists every non-premium resource and only those |
| ResourcesController.GetPremium | Server/Controllers/ResourcesController.cs:25-33 | lists every premium resource and only those |
| ResourcesController.ListingsCoverTable | Server/Controllers/ResourcesController.cs:16-33 | the two listings together have one entry per resource |
| ResourcesController.ResourceGates | Server/Controllers/ResourcesController.cs:25-26 | the free list is open; the premium list is allowed iff the policy holds; anonymous callers are challenged |
| AdminController.AdminGates | Server/Controllers/AdminController.cs:13 | allowed iff the caller holds exactly the Admin role; others who are signed in are forbidden |
| AdminController.CreateResource | Server/Controllers/AdminController.cs:21-28 | stores one resource with the given fields under a new id above every existing one, and returns its record |
| AdminController.SummariesAppend | Server/Controllers/AdminController.cs:33 | a new user shows up last; the others keep their lines |
| AdminController.Users | Server/Controllers/AdminController.cs:30-35 | one line per user in table order, the i-th with the email and display name of the i-th user |
| AdminController.GrantPremium | Server/Controllers/AdminController.cs:37-45 | NotFound for an unknown email; otherwise the user holds Premium afterwards; a user who already held it gets the role error |
| Text.ThreePartSplit | Client/Authentication/ApiAuthenticationStateProvider.cs:94 | splitting gives three parts iff the string is three separator-free parts joined by two separators |
| Base64.EncodeUrl | Server/Auth/JwtTokenService.cs:30 | a token segment has no '=', '+' or '/', and its length is never 1 modulo 4 |
| Base64.DecodeAlphabet | Client/Authentication/ApiAuthenticationStateProvider.cs:145 | a decodable string has only standard-alphabet characters and '=' |
| Base64.DecodeEncode | Client/Authentication/ApiAuthenticationStateProvider.cs:145 | standard decoding undoes standard encoding |
| ClientAuth.ProbablyJwtShape | Client/Authentication/ApiAuthenticationStateProvider.cs:91-96 | a token is plausible iff it is three dot-free parts with the first two longer than five characters; a missing token is not plausible |
| ClientAuth.Repadded | Client/Authentication/ApiAuthenticationStateProvider.cs:140-144 | re-padding only appends, and gives a multiple of four unless the length is 1 modulo 4 |
| ClientAuth.ParseBase64WithoutPadding | Client/Authentication/ApiAuthenticationStateProvider.cs:138-146 | as written, a segment holding '-' or '_' never decodes |
| ClientAuth.UrlToStdChars | Client/Authentication/ApiAuthenticationStateProvider.cs:138-146 | translating a base64url text gives the standard text of the same six-bit groups |
| ClientAuth.RepaddedGroups | Client/Authentication/ApiAuthenticationStateProvider.cs:140-144 | re-padding the unpadded standard text of some bytes gives their padded standard encoding |
| ClientAuth.UrlSegmentRejected | Client/Authentication/ApiAuthenticationStateProvider.cs:138-146 | a payload whose segment holds '_' is lost by the written decoding and recovered by the intended one |
| ClientAuth.SegmentRoundTrip | Client/Authentication/ApiAuthenticationStateProvider.cs:138-146 | the intended decoding gives back every payload the token encoder wrote |
| ClientAuth.DecodingsAgree | Client/Authentication/ApiAuthenticationStateProvider.cs:138-146 | on segments without '-' and '_' the written and the intended decoding agree |
| ClientAuth.ZoeSegment | Client/Authentication/ApiAuthenticationStateProvider.cs:138-146 | the payload {"name":"Zoë"} has the segment "eyJuYW1lIjoiWm_DqyJ9"; the written decoding fails on it and the intended one gives the payload back |
| ClientAuth.MemberClaims | Client/Authentication/ApiAuthenticationStateProvider.cs:108-134 | the claims of one payload member; all have the member's claim type (the role type for a non-null "role" member in any letter case) |
| ClientAuth.MemberClaimsIncluded | Client/Authentication/ApiAuthenticationStateProvider.cs:108-134 | the claims of every member are among the principal's claims |
| ClientAuth.ExpandClaims | Client/Authentication/ApiAuthenticationStateProvider.cs:105-135 | the loop yields the claims member by member, element by element |
| ClientAuth.ParsedClaims | Client/Authentication/ApiAuthenticationStateProvider.cs:98-103 | as written, a token whose claims are read has a payload segment without '-' and '_', and the intended reading gives it the same claims |
| ClientAuth.ParseClaimsFromJwt | Client/Authentication/ApiAuthenticationStateProvider.cs:98-136 | the loop computes the as-written claims: the payload decoded with the standard alphabet; none for a null document; a failure for a missing part, a bad segment or bad JSON |
| ClientAuth.IssuedTokenParses | Client/Authentication/ApiAuthenticationStateProvider.cs:91-103 | a token of base64url segments (header and payload at least five bytes) is plausible, splits back into its three segments, and the intended reading takes its claims from exactly its payload |
| ClientAuth.IssuedTokenAsWritten | Client/Authentication/ApiAuthenticationStateProvider.cs:98-103 | as written, an issued token is read as intended when its payload segment holds neither '-' nor '_'; otherwise its claims are lost and the client state is anonymous |
| ClientAuth.ZoeToken | Client/Authentication/ApiAuthenticationStateProvider.cs:27-47 | a token with the payload {"name":"Zoë"} is plausible and readable as intended, but as written its claims are lost and the client is anonymous |
| ClientAuth.RoleMember | Client/Authentication/ApiAuthenticationStateProvider.cs:110-122 | a "role" member in any letter case, scalar or array, puts the client principal in each role it names |
| ClientAuth.PremiumMember | Client/Authentication/ApiAuthenticationStateProvider.cs:125-133 | a HasPremium member "true" makes the client principal satisfy the premium policy |
| ClientAuth.NullRoleMember | Client/Authentication/ApiAuthenticationStateProvider.cs:132 | a null "role" member gives the claim ("role", "") and no role |
| ClientAuth.ClientState | Client/Authentication/ApiAuthenticationStateProvider.cs:27-47 | the client is authenticated iff the stored token is plausible and its claims can be read |
| ClientAuth.ApiAuthenticationStateProvider.StoredToken | Client/Authentication/ApiAuthenticationStateProvider.cs:57-58 | a token is returned iff storage holds the key |
| ClientAuth.ApiAuthenticationStateProvider.ClearToken | Client/Authentication/ApiAuthenticationStateProvider.cs:60-65 | removes the key, drops the header and publishes the anonymous state |
| ClientAuth.ApiAuthenticationStateProvider.GetAuthenticationState | Client/Authentication/ApiAuthenticationStateProvider.cs:27-47 | an implausible token changes nothing; a readable one becomes the header; an unreadable one is cleared |
| ClientAuth.ApiAuthenticationStateProvider.SetToken | Client/Authentication/ApiAuthenticationStateProvider.cs:49-55 | stores the token, sets the header and publishes the derived state; an unreadable token is cleared again |
| ClientAuth.SignInWithZoeToken | Client/Authentication/ApiAuthenticationStateProvider.cs:49-55 | `SetToken` with that token, from any provider state, publishes the anonymous state twice and leaves the provider with no stored token and no bearer header |
| ClientAuth.ZoeLoginKeepsHeader | Client/Services/AuthService.cs:20-31 | the app's sign-in with that token puts it back in the header after `SetToken`; the next state is anonymous and nothing is stored, yet the header still carries the token |
| ClientAuth.ApiAuthenticationStateProvider.TryRestore | Client/Authentication/ApiAuthenticationStateProvider.cs:67-89 | true iff the stored token is plausible; an implausible non-blank token is cleared; a blank one changes nothing |
| Scenario.PremiumUserToken | Server/Controllers/AuthController.cs:95-105 | a user in the Premium role signs in with a token that satisfies the premium policy |
| Scenario.FirstRequest | Server/Controllers/PurchaseController.cs:56-66 | a first request creates a pending request under the next id, owned by the caller |
| Scenario.ApproveAndRefresh | Server/Controllers/PurchaseController.cs:125-146 | approving the user's request gives Done, my-request then answers "Approved", and the refreshed token satisfies the premium policy |
| Scenario.PremiumFlow | Server/Controllers/PurchaseController.cs:38-146 | request gives "Pending", approval under the assigned id succeeds, my-request gives "Approved", and the refreshed token satisfies the premium policy |

## Left out

- Token serialization, the HMAC-SHA256 signature and its check are not modelled. A token is a
  record, and it is accepted when its key equals the configured key.
- The bearer handler's inbound claim-type map is modelled for the short types "email", "sub",
  "nameid", "unique_name", "role", "roles", "given_name" and "family_name" (`Security.InboundClaimType`).
  Its other entries are not modelled. The outbound map is not modelled: the token is built from
  claims whose types are written as they are.
- `Security.BearerPrincipal`: the registered claims that the token service writes into the
  payload (iss, aud, nbf and exp) are kept as fields of `Token`. The bearer handler would also
  add them to the principal, after the custom claims. None of these types is the role,
  HasPremium, email, displayName, name or NameIdentifier type, so no stated property depends on
  them; but the principal's claim list in the model is exactly the issued claims, without them.
- The client's JSON reader is the parameter `parseJson`. Duplicate member names, and the text of
  nested values beyond their `ToString()`, are up to it.
- The client does not verify the token signature or its lifetime. Neither does the model.
- `Base64.Decode` accepts only an exact multiple of four characters of the alphabet. It does not
  model the white space that `Convert.FromBase64String` skips. Like that method, it ignores the
  unused bits of a padded last group.
- Case-insensitive comparisons and case conversions are ASCII-only. This is exact for the
  constant words compared here: "role", "Premium", the status names and the claim types.
- `Store.Normalize`: user emails and user names are upper-cased ASCII-only. The identity store
  uses `ToUpperInvariant`, so "zoë@example.com" and "ZOË@EXAMPLE.COM" name the same user there,
  but not in the model.
- `PurchaseController.ParseStatusFilter`: the status query is lower-cased ASCII-only. The source
  uses `ToLowerInvariant`, which also maps some non-ASCII letters to ASCII ones: "PENDİNG",
  with the dotted capital İ, selects the pending requests there but lists all in the model.
- String lengths count characters, not UTF-16 code units.
- Asynchrony, concurrency and request interleaving are not modelled. Each endpoint runs
  atomically.
- The client publishes each state as it resolves. The order in which .NET raises the change
  notification is not modelled. Where two notifications are raised, both resolve to the
  anonymous state.
- `PurchaseController.Requests`: the order among requests with equal status and creation time is
  left open, as the database leaves it.
- `ResourcesController.GetPublic` and `ResourcesController.GetPremium` list in table order. The
  database gives no order.
- `ClientAuth.ApiAuthenticationStateProvider`: the bearer header is a field of the provider, and
  only the provider's methods and `ClientAuth.ZoeLoginKeepsHeader` write it. In the app,
  `AuthService` also sets it right after `SetTokenAsync` (Client/Services/AuthService.cs:28-30,
  42-44), so the header need not carry the stored token. The provider's contracts hold from
  every state and do not assume that it does. The rest of `AuthService` is not part of this model.
- `ClientAuth.ApiAuthenticationStateProvider.TryRestore`: the catch in `TryRestoreAsync` is
  unreachable and is not modelled. Setting a header and raising the notification cannot throw,
  because the awaited state is delivered later. A plausible token that later fails to decode is
  reported restored, then cleared.
- Role names are compared exactly in the role table. The identity store's role-name
  normalisation is not modelled, and the roles "Premium" and "Admin" are assumed to exist.
- `Store.PasswordValidation`: the identity store's unique-characters rule (default 1) is modelled
  only as the empty-password case it rejects.
- `UpdateUserAsync` and the security stamp are not modelled.
- The body of the framework's automatic 400 response is not modelled. `InvalidInput` carries the
  list of failed rules; `Register` and `Login` would build their own messages, but that code is
  never reached.
- A null email when saving a premium request is modelled as `ServerError`. The email column does
  not accept null.
- `AdminController.CreateResource`: the [Required] checks implied on `CreateResourceRequest` are
  not modelled. That record's declaration is not part of this model.
- The seeding of roles and users at start-up and the client's `AuthService` (apart from the
  sign-in's header write above) and `ResourceService` are not part of this model.

## Findings

| source | as written | input that shows it | evidently intended | confidence | as-written member | corrected member |
|---|---|---|---|---|---|---|
| Client/Authentication/ApiAuthenticationStateProvider.cs:138-146 | the base64url payload segment is re-padded and given to the standard base64 decoder without turning '-' and '_' back into '+' and '/' | a token whose payload is {"name":"Zoë"}, segment "eyJuYW1lIjoiWm_DqyJ9": decoding fails and the catch clears the valid token: the client state is anonymous, although the app's sign-in puts the token back in the header, so API calls keep carrying it until the page is reloaded | decode base64url: map '-' to '+' and '_' to '/', then re-pad and decode | not executed | ClientAuth.ZoeToken | ClientAuth.IssuedTokenParses |
| Server/Controllers/AuthController.cs:87 | "me" reads the email from the claim type "email", but the bearer handler's default inbound map renames the issued "email" claim to the long email type | any signed-in user: the issued token carries "email", the server receives it as the long email type, FindFirstValue("email") finds nothing and the identity name, the user id, is reported as the email | report the user's email | not executed | AuthController.MeOfIssuedToken | AuthController.MeCorrectedOfIssuedToken |

The model follows the code as written in both places. The client class reads tokens with
`ClientAuth.ParsedClaims`; the intended reading is `ClientAuth.ParsedClaimsIntended`. The
endpoint is `AuthController.Me`; the intended reading is `AuthController.MeCorrected`.
