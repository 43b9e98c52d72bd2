# Grocery storefront: a Dafny model of its decision logic

The storefront is a Next.js application on a hosted Postgres/auth
backend. Customers fill a cart kept in the browser's `localStorage`, check
out for pickup or delivery (the fee depends on distance and cart total),
and the orders API stores an order header and one row per item. Staff use
an admin dashboard and a product manager. Sign-in is by magic link, phone
OTP or password. Password reset is guarded by a fixed-window rate
limiter. A middleware gates the protected pages.

This project models the deterministic logic under those pages and routes.
Every backend call, the clock and the random source become inputs:

- delivery pricing and the radius test (`Delivery`);
- the cart store (`CartStore`);
- checkout fee state, payload and submit (`Checkout`);
- the orders API's create and list (`OrdersApi`), over the row shapes of
  the database types (`Schema`);
- the admin order dashboard (`AdminDashboard`), the product manager
  (`ProductManagement`), the storefront grid (`ProductGrid`) and the image
  upload component (`ImageUpload`);
- password rules (`Password`) and the two password pages
  (`PasswordForm`, `ResetPasswordPage`, `CreatePasswordPage`);
- the rate limiter (`RateLimit`), the reset-request route
  (`ResetRequest`), phone normalisation (`Phone`), OTP and token shape
  (`Tokens`);
- the middleware (`Middleware`), the auth callback (`AuthCallback`), the
  admin login (`AdminLogin`), sign-in (`SignIn`) and sign-up (`SignUp`);
- the WhatsApp order message (`WhatsApp`).

Shared helpers are `Wrappers` (`Option`, `Result`), `Strings` (JavaScript
string operations), `Seqs` (filters, subsequences, sorted distinct lists)
and `Url` (`encodeURIComponent` and reading back a query parameter).

Modelling conventions:

- Money, distances and coordinates are `real`. Quantities and timestamps
  are `int`.
- `Math.round(x)` is `Floor(x + 0.5)`.
- `String.length` counts UTF-16 code units (`Strings.Utf16Length`).
- `toLowerCase` is ASCII-only.
- `trim` removes the ECMAScript white-space and line-terminator set.
- The default `Array.prototype.sort` is lexicographic order on characters.
- A JavaScript truthiness test on an optional string (`x || y`) is
  `Strings.OrElse`. An absent value and `""` are both falsy.
- A backend call's outcome (success, the error it returned, the id it
  assigned) is a parameter. Storage is an explicit value passed in and
  returned.

## Model

| member | source | states |
|---|---|---|
| Delivery.Round | lib/utils/distance.ts:58 | the result is the integer nearest the amount, halves rounding up |
| Delivery.RoundMonotone | lib/utils/distance.ts:58 | rounding never reverses the order of two amounts |
| Delivery.RoundInteger | lib/utils/distance.ts:58 | an amount that is already whole is returned unchanged |
| Delivery.UnroundedFee | lib/utils/distance.ts:43-56 | at or above the free threshold the base fee is waived, so the fee is 0, or just the express surcharge; below it the fee is base plus distance times the per-km rate, plus the surcharge when express |
| Delivery.DeliveryFee | lib/utils/distance.ts:31-59 | the fee charged is the computed amount rounded to the nearest whole number |
| Delivery.FreeAtThreshold | lib/utils/distance.ts:46-56 | a cart total exactly at the threshold already gets free delivery; express still pays the rounded surcharge |
| Delivery.FeeNonNegative | lib/utils/distance.ts:43-58 | with non-negative configuration and distance the fee is never negative |
| Delivery.FeeMonotoneInDistance | lib/utils/distance.ts:49-58 | for a fixed total and express choice, a longer distance never costs less |
| Delivery.DefaultFeeExamples | lib/utils/distance.ts:36-58 | with the default constants 5000/100/40/150: 3 km at 4000 costs 220, at 5000 costs 0, express at 5000 costs 150 |
| Delivery.RadiusCheck | lib/utils/distance.ts:64-78 | the result carries the distance compared, and is within the radius exactly when the distance does not exceed it |
| Delivery.RadiusBoundary | lib/utils/distance.ts:70-77 | a distance equal to the radius is inside; anything beyond it is outside |
| CartStore.GetCart | lib/utils/cart.ts:19-30 | no window, nothing stored, or an unparsable value all read as the empty cart; otherwise the stored cart |
| CartStore.SetCart | lib/utils/cart.ts:32-35 | on the server nothing is stored; in the browser the cart written is the cart read back |
| CartStore.StoreThenRead | lib/utils/cart.ts:19-35 | writing a cart and reading it back gives the same cart |
| CartStore.AddItem | lib/utils/cart.ts:37-52 | an existing line for the product gains the quantity and keeps its position; otherwise one new line is appended; product ids stay unique; the total is the sum of the line amounts and the cart is written back |
| CartStore.AddItemTotal | lib/utils/cart.ts:37-52 | adding raises the total by exactly the added quantity times the price of the line it lands on |
| CartStore.RemoveItem | lib/utils/cart.ts:71-77 | every line of that product goes, the rest keep their order and quantities, and a cart without the product is unchanged |
| CartStore.UpdateQuantity | lib/utils/cart.ts:54-69 | a quantity of zero or less removes the product; a missing product leaves cart and storage untouched; otherwise only that line's quantity changes |
| CartStore.ClearCart | lib/utils/cart.ts:79-83 | the cart is emptied, its total is 0 and reading storage afterwards gives the empty cart |
| CartStore.ItemCount | lib/utils/cart.ts:92-95 | the count is the sum of the quantities of the stored lines: 0 for an empty cart, never negative when no quantity is |
| CartStore.AddItemCount | lib/utils/cart.ts:37-95 | in the browser, adding a quantity raises the item count by exactly that quantity, whether it lands on an existing line or a new one; after clearing the count is 0 |
| CartStore.QuantitySumUpdate | lib/utils/cart.ts:92-95 | changing the quantity on one line changes the count by the difference, the other lines contributing as before |
| CartStore.OperationsKeepTotal | lib/utils/cart.ts:49-90 | add, update, remove and clear all leave the total equal to the sum of price times quantity over the lines |
| CartStore.UpdateNonPositiveRemoves | lib/utils/cart.ts:57-59 | updating to zero or less is exactly removing the product |
| Checkout.FeeEffect | app/checkout/page.tsx:61-76 | pickup, or delivery without both coordinates, resets to fee 0, distance 0, inside; otherwise the radius test sets distance and inside, and the fee is repriced only when inside |
| Checkout.ZeroCoordinateIsMissing | app/checkout/page.tsx:62 | a latitude of exactly 0 counts as no location, because the test is truthiness |
| Checkout.LineSnapshot | app/checkout/page.tsx:114-120 | an order line copies the product's id, name and price, the quantity, and price times quantity |
| Checkout.Snapshots | app/checkout/page.tsx:114-120 | one snapshot per cart line, in cart order |
| Checkout.NullIfEmpty | app/checkout/page.tsx:103-113 | an empty text is sent as null, any other text as itself |
| Checkout.OrderPayload | app/checkout/page.tsx:99-121 | the address fields are null exactly for pickup; subtotal is the cart total and total is subtotal plus fee; empty e-mail and notes become null; the items are the snapshots |
| Checkout.Submit | app/checkout/page.tsx:84-148 | the radius check precedes the location check and neither sends anything; past both checks a signed-in user's order is always sent as the payload and a visitor without a user gets the sign-in error with nothing sent; an accepted order always clears the stored cart and opens the success page, and nothing else does; a refusal shows the server's error or the fallback |
| Checkout.SubmittedOrderIsStored | app/checkout/page.tsx:99-133 | a sent order from a non-empty cart with a name and phone, which the database accepts, is created by the orders route with one item row per cart line, in cart order, carrying the line's product and quantity |
| Checkout.PayloadPassesServerCheck | app/api/orders/route.ts:56-61 | a payload built from a non-empty cart with a name and phone passes the server's required-field check and yields a header insert |
| Checkout.SentFeeIsPriced | app/checkout/page.tsx:61-121 | the fee sent is 0 for pickup and the rounded distance fee for delivery, and the total sent is cart total plus that fee |
| OrdersApi.HeaderInsert | app/api/orders/route.ts:64-81 | the header stores the request's customer, delivery and amount fields unchanged, and exists exactly when the fulfillment name is a known one |
| OrdersApi.ItemRows | app/api/orders/route.ts:94-101 | one item row per request item, in order, each with the new order's id and the request's other fields unchanged |
| OrdersApi.DeleteOrder | app/api/orders/route.ts:110 | exactly the orders with the other ids remain |
| OrdersApi.OrdersPost | app/api/orders/route.ts:6-140 | no session is 401 and missing fields are 400, both with nothing written or sent; a missing body is 500 with nothing written; a rejected header insert is 500 with nothing written; once the header is in, an `items` value that is not an array is the outer 500 with the header left behind, a failed item insert is 500 with the header deleted or left as the delete went, and a successful one is 201; item rows exist only for a created order; a created order stores the header as sent plus its item rows and sends one admin-flagged notice to the customer e-mail or, failing that, the admin address |
| OrdersApi.NonArrayItemsLeaveHeader | app/api/orders/route.ts:56-101 | an `items` value that passes the check without being an array, such as a string, gets the header written and then a 500 with the order left behind without items |
| OrdersApi.AmountsAsSent | app/api/orders/route.ts:64-81 | subtotal, delivery fee and total are stored exactly as the client sent them |
| OrdersApi.OwnerFromBody | app/api/orders/route.ts:56-70 | the owner stored is the body's user id, even when it differs from the session user |
| OrdersApi.EmailFailureIgnored | app/api/orders/route.ts:117-132 | a failing notification changes neither the stored data nor the response |
| OrdersApi.RollbackRestores | app/api/orders/route.ts:103-115 | when the item insert fails and the header delete succeeds, storage is back to its state before the call and the answer is 500 |
| OrdersApi.FailedRollbackLeavesHeader | app/api/orders/route.ts:103-115 | when the delete fails too, the header row stays behind without items |
| OrdersApi.InsertNewest | app/api/orders/route.ts:189 | inserting into a newest-first list keeps it newest-first and adds exactly that order |
| OrdersApi.SortNewest | app/api/orders/route.ts:189 | the list is a permutation of its input ordered by creation time, newest first |
| OrdersApi.ItemsOf | app/api/orders/route.ts:173-187 | exactly the item rows of that order |
| OrdersApi.WithItems | app/api/orders/route.ts:173-187 | each order is paired with its own item rows, in the same order |
| OrdersApi.OwnOrders | app/api/orders/route.ts:188 | exactly the orders of that user |
| OrdersApi.OrdersGet | app/api/orders/route.ts:142-207 | no session is 401 and a failed read is 500; otherwise the list holds the user's orders and no others, newest first, each with its items |
| OrdersApi.GetListsExactlyOwn | app/api/orders/route.ts:172-189 | a stored order appears in the list exactly when it belongs to the session user |
| Schema.ParseStatus | lib/supabase/database.types.ts:78 | a name parses exactly when it is one of the seven status names, to the status of that name |
| Schema.StatusNamesRoundTrip | lib/supabase/database.types.ts:78 | each of the seven statuses parses back from its name |
| Schema.ParseFulfillment | lib/supabase/database.types.ts:69 | only `pickup` and `delivery` parse, each to the type of that name |
| Schema.InsertedOrder | lib/supabase/database.types.ts:82-103 | the stored row copies every insert field; omitted id, number, status, fee and express take the server's values; both timestamps are the insert time |
| Schema.OptionalColumns | lib/supabase/database.types.ts:83-100 | an optional column takes the value given, or the server's default when omitted |
| AdminDashboard.AdminGate | app/admin/page.tsx:19-41 | no user is sent to sign in with `/admin` as the redirect; only a user whose e-mail equals the configured admin e-mail gets the orders loaded; anyone else goes home |
| AdminDashboard.OnlyAdminLoads | app/admin/page.tsx:30-37 | orders load exactly for the configured admin's e-mail |
| AdminDashboard.UnsetAdminAdmitsPhoneAccounts | app/admin/page.tsx:30 | with no admin e-mail configured, a user without an e-mail passes the strict-equality check |
| AdminDashboard.FilterOrders | app/admin/page.tsx:74-94 | the shown orders are the order-preserving subsequence that matches both the status tab and the search |
| AdminDashboard.NoFilterListsAll | app/admin/page.tsx:75-83 | the `all` tab with an empty search shows every order in order |
| AdminDashboard.StatusFilterExact | app/admin/page.tsx:78-80 | a status tab shows exactly the orders with that status |
| AdminDashboard.UnknownStatusListsNothing | app/admin/page.tsx:78-80 | a tab naming no status shows nothing |
| AdminDashboard.SearchIgnoresCase | app/admin/page.tsx:83-91 | searches differing only in letter case show the same orders |
| AdminDashboard.NameSearchFinds | app/admin/page.tsx:83-91 | an order whose lower-cased name contains the lower-cased query is shown, when its tab allows it |
| AdminDashboard.PhoneSearchIsLowerCased | app/admin/page.tsx:84-89 | for every order whose phone has no lower-case letter and every query with an upper-case letter, the phone never matches, because the query is lower-cased and the phone is not; such an order is listed only through its number or name |
| AdminDashboard.UpdateOrderStatus | app/admin/page.tsx:96-121 | a failed update leaves the list alone; a successful one changes only the status of orders with that id |
| AdminDashboard.UpdateChangesOnlyStatus | app/admin/page.tsx:110-114 | every order keeps every field but status, and orders with other ids keep their status |
| AdminDashboard.AnyStatusFromAny | app/admin/page.tsx:96-105 | any status can be set from any status |
| AdminDashboard.LastChangeWins | app/admin/page.tsx:110-114 | two successful updates of one order amount to the second |
| AdminDashboard.ChangedOrderMovesTab | app/admin/page.tsx:74-114 | after a change the order shows under its new status tab |
| ProductManagement.FilterProducts | components/admin/ProductManagement.tsx:24-44 | the shown products are the order-preserving subsequence matching the category and the search |
| ProductManagement.NoFilterListsAll | components/admin/ProductManagement.tsx:25-33 | `all` with an empty search shows every product |
| ProductManagement.CategoryFilterExact | components/admin/ProductManagement.tsx:28-30 | a category shows exactly that category's products |
| ProductManagement.SearchIgnoresCase | components/admin/ProductManagement.tsx:33-41 | searches differing only in letter case show the same products |
| ProductManagement.MissingSinhalaName | components/admin/ProductManagement.tsx:36-39 | without a Sinhala name only the name and category are searched |
| ProductManagement.Categories | components/admin/ProductManagement.tsx:61-65 | the category list is sorted, duplicate-free and holds exactly the products' categories |
| ProductManagement.CategoriesDependOnSet | components/admin/ProductManagement.tsx:61-65 | two product lists with the same categories give the same list, whatever their order or multiplicity |
| ProductManagement.EveryCategoryListsSomething | components/admin/ProductManagement.tsx:28-65 | choosing a listed category never shows an empty table |
| ProductManagement.LoadProducts | components/admin/ProductManagement.tsx:46-71 | a failed fetch keeps the previous listing; a successful one shows the rows (none when null) and their categories |
| ProductManagement.ToggleAvailability | components/admin/ProductManagement.tsx:81-98 | nothing changes unless the update succeeded; then only products with that id get the negated flag |
| ProductManagement.ToggleFlips | components/admin/ProductManagement.tsx:81-98 | a product's availability is flipped and its other fields stay |
| ProductManagement.ToggleTwiceRestores | components/admin/ProductManagement.tsx:81-98 | toggling a product twice restores the list |
| ProductManagement.ImageUpdated | components/admin/ProductManagement.tsx:73-79 | only products with that id get the new image URL; all other fields and products stay |
| ProductManagement.ImageUpdateKeepsListing | components/admin/ProductManagement.tsx:24-79 | an image change never changes how many products a filter shows |
| ProductManagement.ImageSummary | components/admin/ProductManagement.tsx:226-234 | the first number counts the products shown, the second those with a truthy image URL, and the two remaining counts add up to the first; none is without an image exactly when all have one |
| ProductManagement.ImageSummaryAppend | components/admin/ProductManagement.tsx:226-234 | each count of two runs of products together is the sum of their counts |
| ProductManagement.EmptyUrlIsNoImage | components/admin/ProductManagement.tsx:228-232 | an empty image URL counts as no image |
| ProductGrid.GridCategories | components/products/ProductGrid.tsx:17-20 | `all` first, then the distinct categories sorted, so every product's category has a button |
| ProductGrid.GridFilter | components/products/ProductGrid.tsx:23-26 | `all` is the full list; any other choice is exactly that category's products, in order |
| ProductGrid.GridIsCategoryFilter | components/products/ProductGrid.tsx:23-26 | the grid's filter agrees with the admin filter for that category and an empty search |
| ProductGrid.ButtonsShowProducts | components/products/ProductGrid.tsx:17-26 | no button leads to an empty grid unless there are no products |
| ProductGrid.CategoryNamedAll | components/products/ProductGrid.tsx:18-24 | a category literally named `all` gets a second button that shows every product |
| Password.GetStrengthChecks | lib/auth/password.ts:28-33 | the length check holds at 8 or more UTF-16 units and the number check when some character is a decimal digit |
| Password.ValidatePassword | lib/auth/password.ts:11-26 | valid exactly when there are no errors; the length error exactly for fewer than 8 units, the digit error exactly without a digit, length first |
| Password.ValidIffChecks | lib/auth/password.ts:11-33 | validation passes exactly when both strength checks hold |
| Password.FirstErrorIsLength | lib/auth/password.ts:14-16 | a short password reports the length error first |
| Password.LengthBoundary | lib/auth/password.ts:14-20 | seven letters and a digit are valid; six letters and a digit fail only the length rule; eight letters fail only the digit rule |
| Password.PasswordsMatch | components/auth/PasswordStrengthIndicator.tsx:13 | an absent or empty confirmation counts as matching; otherwise it matches exactly when equal |
| Password.Indicator | components/auth/PasswordStrengthIndicator.tsx:11-45 | the checks shown are the strength checks, and the match row appears exactly when a confirmation is given |
| Password.EmptyConfirmationMatches | components/auth/PasswordStrengthIndicator.tsx:13-33 | an empty confirmation shows a ticked match row whatever the password |
| PasswordForm.CaughtText | app/auth/create-password/page.tsx:75 | an `Error` shows its message; anything else shows the fallback |
| PasswordForm.FormCheck | app/auth/reset-password/page.tsx:69-79 | validation failures come first and only the first is shown; the mismatch only once validation passes; the update goes ahead exactly when both checks pass |
| PasswordForm.PassingCheckEnablesButton | app/auth/reset-password/page.tsx:192 | the submit button is never stricter than the checks |
| PasswordForm.ButtonSkipsDigitRule | app/auth/create-password/page.tsx:137 | any eight letters typed twice enable the button, and submitting then shows the digit error |
| PasswordForm.ShortPasswordReportsLength | app/auth/create-password/page.tsx:38-42 | a short password is reported as too short whatever the confirmation |
| ResetPasswordPage.SanitiseOtp | app/auth/reset-password/page.tsx:146 | the field holds digits only, at most six, the first of those typed |
| ResetPasswordPage.MaxLengthCut | app/auth/reset-password/page.tsx:149 | the text the browser lets into the field is a prefix of the text entered, at most six characters long |
| ResetPasswordPage.DigitsSurviveCut | app/auth/reset-password/page.tsx:149 | six leading digits are let in whole |
| ResetPasswordPage.OtpField | app/auth/reset-password/page.tsx:144-150 | the field holds digits only, at most six, a prefix of the digits among the first six units entered |
| ResetPasswordPage.SanitiseIdempotent | app/auth/reset-password/page.tsx:146 | sanitising the field's value again changes nothing |
| ResetPasswordPage.FullFieldIgnoresTyping | app/auth/reset-password/page.tsx:146 | once six digits are in, further typing changes nothing |
| ResetPasswordPage.VerifyNeedsSixDigits | app/auth/reset-password/page.tsx:144-155 | for any text entered into the field, verify is enabled exactly when its first six characters are digits, so a pasted `123-456` leaves it off |
| ResetPasswordPage.HandleVerifyOtp | app/auth/reset-password/page.tsx:41-63 | without a phone nothing happens; otherwise the phone and code are sent, success moves to the password step and failure shows the error or `Invalid OTP` |
| ResetPasswordPage.PasswordStepIsFinal | app/auth/reset-password/page.tsx:13-63 | the password step is never left |
| ResetPasswordPage.PasswordStepNeedsUnlock | app/auth/reset-password/page.tsx:24-63 | from the OTP step the page reaches the password step exactly when some session notice or successful verify occurs |
| ResetPasswordPage.Render | app/auth/reset-password/page.tsx:96-110 | the OTP step without a phone shows only the checking message; with one, the code form; the password step shows the new-password form |
| ResetPasswordPage.HandleResetPassword | app/auth/reset-password/page.tsx:65-94 | the update is called exactly when both checks pass; success goes home with the success notice; a failure shows its message or the fallback |
| ResetPasswordPage.InvalidShowsFirstError | app/auth/reset-password/page.tsx:69-73 | an invalid password shows its first error and no update is made |
| ResetPasswordPage.MismatchOnlyWhenValid | app/auth/reset-password/page.tsx:75-79 | the mismatch is shown without an update exactly for a valid password and a different confirmation |
| CreatePasswordPage.Username | app/auth/create-password/page.tsx:30 | the e-mail, else the phone, else `your account`; never empty |
| CreatePasswordPage.OnLoad | app/auth/create-password/page.tsx:22-32 | no user is sent to sign up; anyone else is greeted by that name |
| CreatePasswordPage.HandleSubmit | app/auth/create-password/page.tsx:34-79 | the checks come first; a failed update stops before the completion call; the completion call is made for the user's id when there is one; a rejected completion shows its error or the fallback |
| CreatePasswordPage.NavigateOnlyAfterBothSucceed | app/auth/create-password/page.tsx:49-73 | navigation happens exactly when the checks pass, the update succeeds and, for a user with an id, the completion call is accepted |
| CreatePasswordPage.NoIdSkipsSetup | app/auth/create-password/page.tsx:61-73 | a user without an id moves on without the completion call |
| CreatePasswordPage.InvalidShowsFirstError | app/auth/create-password/page.tsx:38-42 | an invalid password shows its first error and no update is made |
| ImageUpload.CheckFile | components/admin/ProductImageUpload.tsx:31-41 | a non-image type is rejected first; an image over 5 MiB is rejected; the file passes exactly when it is an image of at most 5 MiB |
| ImageUpload.SizeBoundary | components/admin/ProductImageUpload.tsx:38-41 | exactly 5 MiB passes, one byte more is too large, and the type check wins over the size check |
| ImageUpload.Extension | components/admin/ProductImageUpload.tsx:50 | the text after the last dot, or the whole name when there is no dot |
| ImageUpload.OldKey | components/admin/ProductImageUpload.tsx:81 | the slash-free tail of the URL after its last slash |
| ImageUpload.KeyKeepsExtension | components/admin/ProductImageUpload.tsx:50-52 | the storage key ends in the file's extension |
| ImageUpload.StoredKeyReadsBack | components/admin/ProductImageUpload.tsx:50-113 | the key read back from a public URL ending in `/key` is that key, so the right object is removed later |
| ImageUpload.KeyHasNoSlash | components/admin/ProductImageUpload.tsx:50-52 | a key built from a slash-free id and name has no slash |
| ImageUpload.AfterUpload | components/admin/ProductImageUpload.tsx:72-89 | the row update comes first; its failure stops with the error; success ends with the owner notified of the new URL |
| ImageUpload.HandleFileUpload | components/admin/ProductImageUpload.tsx:27-98 | no file does nothing; a failed check calls nothing; the upload precedes everything else and its failure stops |
| ImageUpload.RemovalFollowsUpdate | components/admin/ProductImageUpload.tsx:72-87 | the old image is removed only after both the upload and the row update succeeded, right after the update |
| ImageUpload.UploadNotifiesOnSuccess | components/admin/ProductImageUpload.tsx:55-89 | the owner is notified of the new URL exactly when upload and update both succeed |
| ImageUpload.HandleDeleteImage | components/admin/ProductImageUpload.tsx:100-139 | nothing happens without an image or a confirmation; the storage removal comes first and its failure stops; the owner is told only after the row was cleared |
| ImageUpload.FailedRemovalKeepsRow | components/admin/ProductImageUpload.tsx:115-130 | a failed removal never clears the image URL |
| RateLimit.Cleanup | lib/auth/rate-limit.ts:8-18 | within a minute of the last sweep nothing changes; otherwise exactly the entries whose reset time has passed are dropped and the sweep time is now |
| RateLimit.CheckRateLimit | lib/auth/rate-limit.ts:20-52 | an absent or strictly expired key starts a fresh window with count 1; otherwise the count goes up by one with the reset time kept; other keys are only swept |
| RateLimit.DecisionMatchesCount | lib/auth/rate-limit.ts:47-51 | allowed exactly when the new count is within the limit; remaining is the limit minus the count, never below 0 |
| RateLimit.ResetIsStrict | lib/auth/rate-limit.ts:38-44 | an entry whose reset time equals now is counted on, not reset |
| RateLimit.FirstRequestAlwaysAllowed | lib/auth/rate-limit.ts:30-36 | the first request on a fresh store is allowed |
| RateLimit.OpenWindowBound | lib/auth/rate-limit.ts:38-51 | within an open window no more requests are allowed than the limit minus those already counted |
| RateLimit.WindowBound | lib/auth/rate-limit.ts:20-52 | within one window at most `limit` requests on a key are allowed |
| RateLimit.ClientIdentifier | lib/auth/rate-limit.ts:54-58 | the trimmed first comma-separated field of `x-forwarded-for`, or `unknown` without one |
| RateLimit.FirstAddressWins | lib/auth/rate-limit.ts:54-58 | a proxy chain is keyed on its first address |
| ResetRequest.ResetPost | app/api/auth/reset-password-request/route.ts:23-91 | the limiter is consulted first under `reset:` plus the client key with 5 per hour, and a denial is 429; past it, a missing body is the generic failure and a missing or non-string identifier is 400; a usable identifier always gets its call, a reset link for an e-mail and an OTP to the normalised number otherwise, and, unless the backend throws, the matching success answer |
| ResetRequest.SurroundingSpaceIgnored | app/api/auth/reset-password-request/route.ts:36-42 | two identifiers that trim to the same text get the same call and the same answer |
| ResetRequest.EmailAnswerHidesErrors | app/api/auth/reset-password-request/route.ts:58-67 | the e-mail answer is the same whether the reset call failed or not |
| ResetRequest.DeniedIgnoresBody | app/api/auth/reset-password-request/route.ts:25-32 | a denied request is answered before the body is looked at |
| ResetRequest.ServedIsAllowed | app/api/auth/reset-password-request/route.ts:25-32 | the number of requests served is the number the limiter allowed, whatever their bodies |
| ResetRequest.FivePerHour | app/api/auth/reset-password-request/route.ts:25-32 | at most five requests per client are served within an hour |
| ResetRequest.BlankIdentifierIsPhone | app/api/auth/reset-password-request/route.ts:34-40 | a blank identifier passes the presence check and is treated as the phone `+94` |
| Phone.IsEmailIsIncludes | app/api/auth/reset-password-request/route.ts:5-7 | an identifier is an e-mail exactly when it contains `@` |
| Phone.FormatPhone | app/api/auth/reset-password-request/route.ts:9-21 | the trimmed input kept when it starts with `+`; a leading `0` replaced by `+94`; `94` prefixed with `+`; anything else prefixed with `+94` |
| Phone.FormatPhoneShape | app/api/auth/reset-password-request/route.ts:9-21 | the result always starts with `+`, never ends in white space, and ends with the trimmed input or with the input less its trunk `0` |
| Phone.FormatClean | app/api/auth/reset-password-request/route.ts:10-18 | on an already trimmed input the four cases are applied directly |
| Phone.FormatPhoneIdempotent | app/api/auth/reset-password-request/route.ts:9-21 | normalising twice is normalising once |
| Phone.FormatNational | app/api/auth/reset-password-request/route.ts:17-18 | a national number gets `+94` |
| Phone.FormatTrunk | app/api/auth/reset-password-request/route.ts:12-13 | the trunk prefix `0` becomes `+94` |
| Phone.FormatCountryCode | app/api/auth/reset-password-request/route.ts:14-15 | a number starting with `94` gets only `+` |
| Phone.FormatInternational | app/api/auth/reset-password-request/route.ts:10-11 | an international number is kept |
| Phone.FormatPhoneCanonical | app/api/auth/reset-password-request/route.ts:9-21 | the four spellings of a national number all normalise to the same `+94` number |
| SignUp.FormatPhone | app/auth/signup/page.tsx:30-42 | the page's copy agrees with the route's normalisation on every input and always starts with `+` |
| SignIn.NormalisePhone | app/auth/signin/page.tsx:63-72 | the inline normalisation agrees with the route's on every input and always starts with `+` |
| SignIn.VerifyCarriesPhone | app/auth/signin/page.tsx:82 | with the phone encoded and the redirect not, the OTP page still reads the formatted phone back intact |
| SignIn.VerifyPlainRedirect | app/auth/signin/page.tsx:82 | for a redirect of unreserved characters, the unencoded path is the encoded one |
| SignIn.PlainRedirectSurvives | app/auth/signin/page.tsx:41 | a redirect without `&` or `#` is read back intact from the callback URL |
| SignIn.RedirectCutAtAmpersand | app/auth/signin/page.tsx:41 | a redirect holding `&` is read back cut at the `&` |
| SignIn.EncodedRedirectSurvives | app/auth/signin/page.tsx:41 | with the redirect encoded, every redirect is read back intact |
| SignIn.EncodedVerifyCarriesPhone | app/auth/signin/page.tsx:82 | the OTP page reads the formatted phone back intact |
| SignUp.BaseUrl | app/auth/signup/page.tsx:52-55 | the configured app URL, else the window origin, with at most one trailing slash removed |
| SignUp.EmailLinkReturnsToCreatePassword | app/auth/signup/page.tsx:52-56 | the e-mail link's callback reads back `/auth/create-password` |
| SignUp.VerifyOtpCarriesPhone | app/auth/signup/page.tsx:92-94 | the OTP page reads the formatted phone back intact |
| Url.EncodeURIComponent | app/auth/signup/page.tsx:56 | the encoding never shortens and uses only unreserved characters and upper-case escapes |
| Url.DecodeEncode | app/auth/signup/page.tsx:93 | decoding an encoded component gives it back |
| Url.NoDelimiters | app/auth/signup/page.tsx:93 | an encoded component holds no `&`, `=`, `?`, `#`, `/` or space |
| Url.QueryOf | app/auth/signin/page.tsx:41 | a URL has a query exactly when it contains `?` |
| Url.ParamReadsBack | app/auth/signin/page.tsx:41 | a value without `&` or `#` placed after `name=` reads back intact |
| Url.ParamCutAtAmpersand | app/auth/signin/page.tsx:41 | a value holding `&` reads back only up to it |
| Url.EncodedParamReadsBack | app/auth/signup/page.tsx:56 | any encoded value reads back and decodes to itself |
| Url.FirstOfTwoParams | app/auth/signup/page.tsx:93 | the first of two encoded parameters reads back intact |
| Middleware.Refresh | middleware.ts:58-73 | the refresh is asked for exactly when the session expires within the next hour and has not yet expired; the session is replaced only when the refresh returned one |
| Middleware.Run | middleware.ts:58-104 | unprotected paths pass through without a profile read; protected without a session goes to sign-in; the profile is read only with a session off the create-password path, and a set setup flag goes to create-password; redirects carry the path |
| Middleware.RefreshKeepsSignedIn | middleware.ts:64-73 | a refresh never signs anyone out, and without a session nothing is refreshed |
| Middleware.RefreshWindowEdges | middleware.ts:66-67 | exactly one hour left, or none, means no refresh; one second left means a refresh |
| Middleware.ExpiredSessionPasses | middleware.ts:64-103 | an expired session is not refreshed and still counts as signed in |
| Middleware.CreatePasswordUnprotected | middleware.ts:76-80 | the create-password path is not a protected path |
| Middleware.MatchedIsProtected | middleware.ts:76-107 | every path the route matcher sends in counts as protected |
| Middleware.PrefixLooserThanMatcher | middleware.ts:76-107 | `/ordersX` counts as protected although the matcher never sends it in |
| AuthCallback.GetOrigin | app/auth/callback/route.ts:6-20 | both forwarding headers give `proto://host`; else `VERCEL_URL` over https; else the app URL without one trailing slash; else the request origin |
| AuthCallback.OneHeaderIgnored | app/auth/callback/route.ts:10 | a lone forwarding header is ignored |
| AuthCallback.Get | app/auth/callback/route.ts:22-91 | every redirect is on the chosen origin; no code goes to sign-in without an exchange; with a code the redirect target is resolved first, and the exchange runs exactly when it parses; an exchange error goes to sign-in with the message encoded; success goes to the redirect or `/`; a reference the URL parser rejects is a 500 |
| AuthCallback.BadRedirectSkipsExchange | app/auth/callback/route.ts:26-32 | a redirect the URL parser rejects gives a 500 before the code is exchanged, whatever the exchange would have answered |
| AuthCallback.ErrorParameterIntact | app/auth/callback/route.ts:84-88 | the error message reads back intact from the sign-in URL |
| AuthCallback.OpenRedirect | app/auth/callback/route.ts:26-32 | a redirect of `//host` is used unchanged and resolves away from the site |
| AuthCallback.SafeRedirect | app/auth/callback/route.ts:26 | always a same-site path, the given one when it already is |
| AuthCallback.SafeGet | app/auth/callback/route.ts:22-91 | as the route, with the redirect replaced by a same-site path before it is resolved; the exchange runs exactly when that path parses |
| AuthCallback.SafeGetStaysOnSite | app/auth/callback/route.ts:26-32 | with the check, a successful sign-in never leaves the site |
| AuthCallback.SameSitePathStays | app/auth/callback/route.ts:32 | a same-site path resolves on the base origin |
| AuthCallback.SafeRedirectKeepsPaths | app/auth/callback/route.ts:26 | `/orders` is kept, no redirect gives `/`, and `//evil.example` is replaced by `/` |
| AdminLogin.AutoRedirect | app/admin/login/page.tsx:20-33 | a signed-in user is sent on at once exactly when the admin e-mail is set and is theirs |
| AdminLogin.AutoRedirectIgnoresProfile | app/admin/login/page.tsx:24-28 | an admin by profile flag with another e-mail still sees the form |
| AdminLogin.ClassifyError | app/admin/login/page.tsx:74-88 | `rate` or `too many` in the lower-cased message means too many attempts; failing that, `network` or `fetch` means a connection error; anything else is invalid credentials |
| AdminLogin.ClassifyIgnoresCase | app/admin/login/page.tsx:79-83 | letter case does not change the classification |
| AdminLogin.RateBeforeNetwork | app/admin/login/page.tsx:79-85 | a message mentioning both rate and network reads as rate limiting |
| AdminLogin.RateInsideWord | app/admin/login/page.tsx:79 | any word containing `rate` reads as rate limiting |
| AdminLogin.HandleSignIn | app/admin/login/page.tsx:35-92 | the e-mail is trimmed and the password is not; after sign-in, admins go on and anyone else is signed out with the access-denied message; errors are classified |
| AdminLogin.NoMessageIsInvalid | app/admin/login/page.tsx:75-88 | an error without a message reads as invalid credentials |
| AdminLogin.UnsetAdminEmailNeedsFlag | app/admin/login/page.tsx:52-66 | without a configured admin e-mail only the profile flag admits |
| Tokens.ReadUInt32BE | lib/auth/tokens.ts:14 | four bytes read big-endian give a value below 2^32 |
| Tokens.WriteUInt32BE | lib/auth/tokens.ts:14 | a 32-bit value is four bytes |
| Tokens.ReadWriteUInt32 | lib/auth/tokens.ts:14 | reading back written bytes gives the value |
| Tokens.GenerateOtp | lib/auth/tokens.ts:13-17 | six decimal digits whose value is the random 32-bit value modulo one million |
| Tokens.DecimalBounds | lib/auth/tokens.ts:15-16 | a digit string's value is below ten to its length, and at least ten to one less without a leading zero |
| Tokens.DecimalLength | lib/auth/tokens.ts:15-16 | a value below one million never needs more than six digits, so the padding never truncates |
| Tokens.DecimalInjective | lib/auth/tokens.ts:15-16 | two digit strings of one length with the same value are equal |
| Tokens.OtpCoversEveryCode | lib/auth/tokens.ts:13-17 | every six-digit code, leading zeros included, can be generated |
| Tokens.HexEncode | lib/auth/tokens.ts:9 | two lower-case hex digits per byte |
| Tokens.HexDecode | lib/auth/tokens.ts:9 | one byte per pair of hex digits |
| Tokens.HexRoundTrip | lib/auth/tokens.ts:9 | decoding the hex encoding gives the bytes back |
| Tokens.GenerateSecureToken | lib/auth/tokens.ts:8-10 | 64 lower-case hex digits that decode to the 32 random bytes |
| Tokens.TokenExpiry | lib/auth/tokens.ts:20-24 | five minutes after now |
| Tokens.ExpiryWindow | lib/auth/tokens.ts:4-24 | a token is unexpired exactly for the five minutes after issue |
| Strings.OrElse | app/auth/signin/page.tsx:18 | a present, non-empty value is used as is, anything else gives the fallback; the sign-in, sign-up, create-password and admin sign-in pages pick their `redirect` parameter this way, falling back to `/`, `/auth/create-password`, `/` and `/admin` |
| Strings.KeepDigits | lib/utils/format.ts:14-16 | only decimal digits remain, and every digit of the input, in order |
| Strings.KeepDigitsAppend | lib/utils/format.ts:15 | the digits of a concatenation are the digits of each part |
| Strings.KeepDigitsOfDigits | lib/utils/format.ts:15 | an all-digit input is returned unchanged |
| Strings.KeepDigitsIdempotent | lib/utils/format.ts:15 | filtering twice is filtering once |
| WhatsApp.WhatsAppPhoneOfInternational | lib/utils/format.ts:14-16 | an international number loses only its `+` |
| WhatsApp.ItemLine | lib/utils/format.ts:27-29 | a bullet, the item's name, ` x ` and the quantity, which is the line's last word |
| WhatsApp.ItemLineQuantity | lib/utils/format.ts:27-29 | the quantity reads back from the line's last word |
| WhatsApp.ItemLines | lib/utils/format.ts:27-29 | one line per item, in order |
| WhatsApp.LineNewlines | lib/utils/format.ts:27-29 | a line has no newline when the name has none |
| WhatsApp.ItemsListLines | lib/utils/format.ts:27-29 | splitting the list at newlines gives back exactly one line per item, so there is no trailing newline |
| WhatsApp.FulfillmentLabel | lib/utils/format.ts:32 | Pickup only for `pickup`; any other value reads Delivery |
| WhatsApp.MessageText | lib/utils/format.ts:31-33 | the message starts with the order number header |
| WhatsApp.WhatsAppMessage | lib/utils/format.ts:21-34 | the link text holds only unreserved characters and `%` escapes, and decodes back to the message |

## Left out

- I/O mechanics: cookies, `localStorage` JSON encoding, React state and
  effect timing, `window` events such as `cartUpdated`, loading flags and
  `finally` blocks, console logging, alerts and confirm dialogs. Where the
  outcome of one of these matters it is an input, such as the confirm
  answer in `ImageUpload.HandleDeleteImage`.
- The haversine `calculateDistance` (lib/utils/distance.ts:5-23): floating
  point trigonometry. The distance is an input.
- `formatCurrency` (lib/utils/format.ts:4-9): locale-dependent number
  formatting. The formatted total is an input to `WhatsApp.MessageText`.
- The e-mail and SMS transports, HTML templates and invoice printing. Only
  the notification request the orders route makes is modelled.
- `storeVerificationToken` and `verifyToken` (lib/auth/tokens.ts:27-60):
  backend procedure calls with no local logic.
- Random bytes and the clock: passed in as parameters.
- The image component's `cacheControl`/`upsert` options and
  `getPublicUrl`. The public URL is an input.
- The database's own checks (enum constraints, foreign keys): a rejected
  insert is the header-insert failure input.
- OrdersApi.OrdersPost: a body that is not JSON is modelled as the 500
  answer of the outer `catch`. The body is a parsed record or nothing. An
  `items` value that is not an array is seen only through its truthiness
  and its `length`; its elements are taken to have the five fields read.
- CartStore.AddItem: the quantity is always passed. The default of 1 in
  `addItem` is a caller passing 1.
- AuthCallback.Get: the URL parser is an input, `resolves(ref, base)`. The
  model does not say which references it rejects, such as `//` against an
  https origin. The origin's own validity is part of the same input.
- OrdersApi.SortNewest: orders with the same creation time keep their
  stored order. The database leaves that tie order unspecified.
- RateLimit.CheckRateLimit: one `now` per call. The source reads the clock
  up to three times per call.
- Tokens.TokenExpiry: `setMinutes` works in local time. Daylight-saving
  jumps are ignored, so the result is exactly 300000 ms later.
- Middleware.Run: how `searchParams.set` serialises the redirect value.
  The redirect is modelled as the path it carries.
- Url.QueryOf: a simplified URL reading. It takes the text after the
  first `?` up to the first `#`. It does not cover `+` as space or the
  full query decoding of `URLSearchParams`.
- AuthCallback.OpenRedirect: `MayLeaveSite` only recognises two leading
  slashes or a scheme. It does not model the rest of URL resolution.
- SignIn.VerifyCarriesPhone: stated for a redirect without `#`. A `#` in
  the redirect would end the query after the phone, so the phone would
  still read back, but the lemma does not cover that case.
- Strings.ToLower: ASCII letters only. `toLowerCase` also folds non-ASCII
  letters.
- Strings.LexLe: order by code points. The default sort compares UTF-16
  units, which differs only for characters outside the Basic Multilingual
  Plane.
- The pages' rendering beyond the decisions above (`Render`, `Indicator`):
  markup, styles and icons.

## Findings

| source | as written | input that shows it | evidently intended | confidence | as-written member | corrected member |
|---|---|---|---|---|---|---|
| app/auth/callback/route.ts:26-32 | the `redirect` parameter is resolved against the site origin without a check | `redirect=//evil.example` with a valid code sends the signed-in user to `evil.example` | only a same-site path is followed, anything else falls back to `/` | high, not executed | AuthCallback.OpenRedirect | AuthCallback.SafeGetStaysOnSite |
| app/auth/signin/page.tsx:41 | the redirect is placed in the callback URL without `encodeURIComponent` | `redirect=/orders?tab=a&x=1` comes back from the callback as `/orders?tab=a` | the value is encoded, as the sign-up page does at line 56 | high, not executed | SignIn.RedirectCutAtAmpersand | SignIn.EncodedRedirectSurvives |
