# Hungerbox-ui, modelled in Dafny

Hungerbox-ui is a React client for ordering food from three counters of an
office canteen: the Main Cafe, the Food Court and Time Out. This project
models the logic behind its screens and proves what that logic guarantees.

- **Cart engine** (`Cart`). `addToCart` appends a new line or increments the
  existing one. `removeFromCart` decrements a line or drops it. The module
  also covers the subtotal, the 5% GST and the total. The three counters
  carry identical copies of this code, so one module models all of them.
- **Menu filters** (`MenuFilters`). Each counter's category rules and the
  name search.
- **Opening check** (`Opening`). The Main Cafe opens at 12:00. Before that,
  the screen shows a countdown.
- **Checkout** (`Checkout`). Covers the six-character bill id, the
  dd-mm-yyyy and HH:MM stamps, the order payload and the checkout handler of
  a menu screen, as a class over its cart.
- **Order history** (`OrderHistory`). Home's pipeline cleans the user name,
  drops orders without a user name, keeps the first order of each bill id
  and sorts newest first. The module also covers Home's error messages,
  display name, date display and counter attribution.
- **Login and Signup** (`Login`, `Signup`).
  - Both have ordered form validation.
  - Login also reads the server's reply and keeps a fallback user id, a
    31·h + c string hash wrapped to signed 32 bits.
  - Signup also covers its payload, its success message and its error
    mapping.
- **Profile** (`Profile`). A class holding the screen's state. It covers
  the user-name edit, the password change and the two-step account
  deletion.
- **Shared modules.**
  - `Text` models the JavaScript string operations the code relies on
    (`trim`, `toLowerCase`, `includes`, `split`/`join`, `String(n)`,
    `padStart`).
  - `Seqs` models `filter` together with the notion of a subsequence.
  - `Greeting` models the "welcome …!" stripping that Login and Home share.
  - `Http` describes how a request can fail.
  - `Wrappers` holds `Option`.

Network replies, the clock, the random draws of the bill id and the contents
of local storage are all parameters.

Money is `real`, so amounts are exact. Login's hash is modelled as written,
shift included, and is proved to equal ToInt32(31·h + c).

## Model

| member | source | states |
|---|---|---|
| Cart.Add | src/components/MainCafe.js:161-174 | The result contains the item's food id and exactly the food ids that were there before. A valid cart (distinct ids, quantities ≥ 1) stays valid and holds one more item. |
| Cart.Remove | src/components/MainCafe.js:178-192 | Needs the food id to be in the cart, because `existingItem.quantity` throws otherwise. Other ids are unaffected. A valid cart stays valid and holds one item fewer. The id stays in the cart iff its quantity was above 1. |
| Cart.AddNewAppends | src/components/MainCafe.js:172-173 | A new food id appends exactly one line, with quantity 1 and the item's fields, and keeps every earlier line. |
| Cart.AddExistingIncrements | src/components/MainCafe.js:165-170 | A present food id has its line's quantity raised by 1. Length, order and all other lines are unchanged. |
| Cart.RemoveLastDrops | src/components/MainCafe.js:182-183 | When the quantity is 1, exactly that line is deleted and the rest keep their order. |
| Cart.RemoveDecrements | src/components/MainCafe.js:184-190 | When the quantity is above 1, only that line's quantity is lowered by 1. |
| Cart.AddThenRemove | src/components/MainCafe.js:161-192 | In a valid cart, adding an item and then removing its food id gives back the original cart. |
| Cart.AddSubtotal | src/components/MainCafe.js:195-197 | Adding raises the subtotal by the unit price of the item's line. |
| Cart.RemoveSubtotal | src/components/MainCafe.js:195-197 | Removing lowers the subtotal by the price of the line removed from. |
| Cart.AddOrderIrrelevant | src/components/MainCafe.js:161-174 | When a food id determines its item, the subtotal after two additions does not depend on their order. |
| Cart.UnitPriceAfterOtherAdd | src/components/MainCafe.js:161-174 | Adding one item leaves the unit price of any other food id unchanged. |
| Cart.TotalWithGst | src/components/MainCafe.js:200-208 | The total equals subtotal + GST, which is subtotal × 1.05. |
| Cart.AmountsNonNegative | src/components/MainCafe.js:195-208 | When no price is negative: 0 ≤ GST ≤ subtotal ≤ total. |
| Cart.TwoAddsScenario | src/components/TimeOutCounter.js:108-156 | Adding a 20-rupee item twice gives one line of quantity 2, subtotal 40, GST 2 and total 42. |
| Cart.AddRemoveScenario | src/components/FoodCourt.js:115-146 | Adding an item to an empty cart and removing it once empties the cart. |
| Cart.ValidMeans | src/components/MainCafe.js:161-192 | The recursive cart invariant is equivalent to "food ids pairwise distinct and every quantity at least 1". |
| Cart.IndexOfFirst | src/components/MainCafe.js:163 | `find` returns the first line with the food id, and no earlier line has it. |
| Cart.WithoutDeletes | src/components/MainCafe.js:182-183 | In a valid cart, the `filter` removes the single line with the id. |
| MenuFilters.MainCafeMenu | src/components/MainCafe.js:125-158 | The list is a subsequence of the menu. It contains exactly the entries that match both the search and the category rule. |
| MenuFilters.FoodCourtMenu | src/components/FoodCourt.js:77-112 | The same, with the Food Court categories. |
| MenuFilters.TimeOutMenu | src/components/TimeOutCounter.js:68-105 | The same, with the Time Out categories. |
| MenuFilters.AllIsSearch | src/components/MainCafe.js:125-128 | On each screen, `all` keeps exactly the search results. |
| MenuFilters.CategoryNarrowsSearch | src/components/MainCafe.js:125-158 | Each category list is the search result narrowed by the category rule. |
| MenuFilters.RiceCategory | src/components/MainCafe.js:129-135 | `rice` keeps the search matches whose name contains "rice" but neither "fried rice" nor "biriyani". |
| MenuFilters.RiceAndBiriyaniDisjoint | src/components/MainCafe.js:129-144 | `rice` and `biriyani` never show the same entry. |
| MenuFilters.PastriesCategory | src/components/FoodCourt.js:86-91 | `pastries` keeps the matches that contain "pastry" or "slice". |
| MenuFilters.IndianCategory | src/components/FoodCourt.js:104-109 | `indian` keeps the matches that contain "gulab" or "rasgulla". |
| MenuFilters.SnacksCategory | src/components/TimeOutCounter.js:73-82 | `snacks` keeps the matches that contain patties, fritters, cutlet, roll or fry. |
| MenuFilters.BurgersCategory | src/components/TimeOutCounter.js:93-95 | `burgers` keeps the matches that contain "burger". |
| MenuFilters.EmptySearchShowsAll | src/components/MainCafe.js:126 | With an empty query, `all` shows the whole menu. |
| Opening.OpeningBoard.CheckOpeningTime | src/components/MainCafe.js:33-63 | Open iff the hour is ≥ 12. When closed, the text is the countdown `(11−h)h (59−m)m (60−s)s`. When open, the old countdown stays. |
| Opening.OpeningBoard.constructor | src/components/MainCafe.js:14-16 | The board starts closed, with no countdown. |
| Opening.CountdownIsTimeLeft | src/components/MainCafe.js:55-58 | Before noon, the countdown totals 43200 − (3600h + 60m + s) seconds. Hours are 0..11, minutes 0..59, seconds 1..60. |
| Opening.CountdownTicks | src/components/MainCafe.js:55-58 | One second later, the countdown is one second shorter. |
| Opening.CountdownExamples | src/components/MainCafe.js:60-62 | 11:59:59 shows "0h 0m 1s" and 11:00:00 shows "0h 59m 60s". |
| Checkout.GenerateBillId | src/components/MainCafe.js:211-218 | The loop appends the character chosen by each of the six draws. |
| Checkout.BillIdShape | src/components/MainCafe.js:211-218 | Every bill id has six alphanumeric characters. Different draws give different ids. |
| Checkout.EveryIdReachable | src/components/MainCafe.js:211-218 | Every six-character alphanumeric string is the bill id of some draws. |
| Checkout.AlphabetIndex | src/components/MainCafe.js:212 | Every alphanumeric character has a position in the 62-character alphabet. |
| Checkout.FormatDateParts | src/components/MainCafe.js:221-226 | `formatDate` has 10 characters. Split on '-', it gives the day, month and year back as numbers. |
| Checkout.FormatTimeParts | src/components/MainCafe.js:229-233 | `formatTime` has 5 characters. Split on ':', it gives the hour and minute back. |
| Checkout.Names | src/components/MainCafe.js:266 | The names list the line names, one per line, in cart order. |
| Checkout.FoodItemsRoundTrip | src/components/MainCafe.js:266 | When no name contains ',', splitting `fooditems` on ',' gives back the names in cart order. |
| Checkout.OrderPrices | src/components/MainCafe.js:267 | Main Cafe and Time Out send the subtotal. Food Court sends subtotal + GST, which is 1.05 × the subtotal. |
| Checkout.OrderUserFallbacks | src/components/MainCafe.js:258-259 | `userid` falls back from `userId` to `id` to "1", and `username` falls back to "Customer". Neither is ever empty. |
| Checkout.MenuScreen.constructor | src/components/MainCafe.js:11 | A screen starts with an empty, valid cart. |
| Checkout.MenuScreen.AddToCart | src/components/MainCafe.js:161-174 | The cart becomes `Add` of the old cart, and the cart invariant is kept. |
| Checkout.MenuScreen.RemoveFromCart | src/components/MainCafe.js:178-192 | The cart becomes `Remove` of the old cart, and the cart invariant is kept. |
| Checkout.MenuScreen.HandleCheckout | src/components/MainCafe.js:239-318 | An empty cart, or no stored user, stops before any request. Otherwise the posted order is the payload built from the cart, user, clock and draws. axios resolves the request only on a 2xx status. The outcome is Placed iff the status is 200/201, and Declined ("try again") iff it is another 2xx status. It is ConnectionFailed (the `catch`) iff there is no response or the status is outside 2xx. The cart is cleared only when Placed. |
| Greeting.GreetingRoundTrip | src/components/Home.js:85-96 | For any capitalisation of "welcome ", stripping "welcome " + name + "!" gives back a trimmed name. |
| Greeting.NoGreetingUnchanged | src/components/Home.js:85-96 | A string without the prefix or a trailing '!' is left as it is. |
| Greeting.StrippedIsTrimmed | src/components/Login.js:69-79 | Whenever something was stripped, the result is trimmed. |
| OrderHistory.CleanUsername | src/components/Home.js:85-96 | The successive reassignments compute the greeting stripping, with no trim first. |
| OrderHistory.ValidOrdersMeans | src/components/Home.js:110-112 | The filter is a subsequence that keeps exactly the orders whose user name is not blank. |
| OrderHistory.KeepFirstMeans | src/components/Home.js:116-127 | The kept orders are a subsequence with non-empty, pairwise distinct bill ids. Each is the first order with its bill id, and every non-empty bill id is covered. |
| OrderHistory.DedupByBillId | src/components/Home.js:116-127 | The `forEach` with its `Set` returns exactly those first occurrences. |
| OrderHistory.StampOf | src/components/Home.js:133-140 | `parseDateTime` reads day, month, year and the time, or "00:00". No date gives the epoch. |
| OrderHistory.RankOrder | src/components/Home.js:143-146 | On stamps of days that exist in the calendar, the subtracted key orders them as the calendar does and tells them apart. |
| OrderHistory.SortNewestFirst | src/components/Home.js:130-151 | The sort is a permutation of its input, and its output is well formed. |
| OrderHistory.SortIsNewestFirst | src/components/Home.js:130-151 | The sort's output runs newest first. |
| OrderHistory.InsertPermutes | src/components/Home.js:143-146 | One insertion step adds the order and loses none. |
| OrderHistory.InsertIsStable | src/components/Home.js:143-146 | Inserting an order keeps the orders of every sort key in the order they had with the new one in front. |
| OrderHistory.SortIsStable | src/components/Home.js:130-151 | For every key, the orders with that key appear in the sorted list in their input order. |
| OrderHistory.UndatedLast | src/components/Home.js:134 | An order without a date sorts after every order dated after 1970. |
| OrderHistory.ProcessedOrders | src/components/Home.js:110-151 | Every order shown has a non-blank user name and a distinct non-empty bill id. The list runs newest first. |
| OrderHistory.FetchFailureMessages | src/components/Home.js:166-178 | A 404 reads like an empty history, and every failure has a message. |
| OrderHistory.HomeScreen.FetchUserOrders | src/components/Home.js:77-185 | Queries with the cleaned name. An array reply of well-formed orders is shown processed, with "No orders found" when it is empty. A non-array reply, or a failure, keeps the list and sets the matching error. |
| OrderHistory.HomeScreen.constructor | src/components/Home.js:15-17 | The screen starts with no orders and no error. |
| OrderHistory.DisplayNameCases | src/components/Home.js:257-283 | A stored greeting is shown as the bare name. A blank name falls back to the contact number, then to "User". |
| OrderHistory.FormatOrderDateCases | src/components/Home.js:285-298 | A checkout date dd-mm-yyyy is shown as dd/mm/yyyy. A date without '-' is shown as it is. |
| OrderHistory.RestaurantPriority | src/components/Home.js:492-507 | An order is attributed to Food Court, else Main Cafe, else Time Out, by their keywords in that priority. Otherwise it is "Unknown Center". |
| Text.BlankIffTrimsToEmpty | src/components/Login.js:33 | `!x.trim()` holds exactly when every character of `x` is white space. |
| Text.ContainsIffAt | src/components/MainCafe.js:126 | `includes` holds exactly when the text occurs at some position. |
| Login.ValidateForm | src/components/Login.js:32-54 | Accepts iff the contact is 10 digits and the password has ≥ 6 characters. Each message appears exactly when the earlier checks passed and its own check failed. |
| Login.LoginDataOfValidForm | src/components/Login.js:120-123 | For a valid form, trimming the contact changes nothing, and the password is sent as typed. |
| Login.RejectionIsSubstring | src/components/Login.js:141-144 | A reply is rejected iff it contains "Failed" or "Invalid". The two exact texts are subsumed. |
| Login.ExtractCleanUsername | src/components/Login.js:69-79 | "" for "". Otherwise it is the greeting stripping of the trimmed message. |
| Login.HashStepIs31 | src/components/Login.js:100-101 | The step `((h<<5)-h)+c`, then `&` itself, equals ToInt32(31h + c). |
| Login.ContactHash | src/components/Login.js:98-103 | The hash is always a signed 32-bit value. |
| Login.ContactHashIsPolynomial | src/components/Login.js:98-103 | The loop computes Σ code·31^k, wrapped to signed 32 bits. |
| Login.JsRem | src/components/Login.js:106 | JavaScript `%`: the remainder of the magnitudes, with the dividend's sign. |
| Login.FallbackNumber | src/components/Login.js:106 | `Math.abs(hash % 999) + 2` lies in 2..1000. |
| Login.GenerateUserIdFromContact | src/components/Login.js:94-108 | The loop returns the fallback id: "1" for an empty contact, otherwise the decimal of the fallback number. |
| Login.FallbackIdShape | src/components/Login.js:105-107 | For a non-empty contact, the id has 1-4 digits, reads as 2..1000, and is never "1". |
| Login.LoginFailureMessages | src/components/Login.js:210-220 | 400/401 read as bad credentials. Any other status gives "Server error (status)", with the status in decimal. |
| Login.SignedInUserIdCases | src/components/Login.js:158-180 | The backend id wins. Otherwise a contact number gets its hash id, which is never "1". |
| Login.LoginScreen.constructor | src/components/Login.js:8-18 | The form starts empty, with nothing stored and the password hidden. |
| Login.LoginScreen.HandleChange | src/components/Login.js:20-26 | The named field takes the value, and the error is cleared. |
| Login.LoginScreen.TogglePasswordVisibility | src/components/Login.js:28-30 | Flips the visibility and nothing else. |
| Login.LoginScreen.HandleSubmit | src/components/Login.js:110-229 | Per the list below. |
| Signup.ValidateForm | src/components/Signup.js:37-70 | Accepts iff the username is not blank, the contact is 10 digits, and the password has ≥ 6 characters and equals the confirmation. The first failing check names the single error. |
| Signup.SignupDataOfValidForm | src/components/Signup.js:99-103 | The username is sent trimmed and non-empty, and the contact as typed. The password is sent unmodified. |
| Signup.HandleChangeEffect | src/components/Signup.js:20-27 | An edit sets only the named field and clears a pending error. |
| Signup.TogglesAreIndependent | src/components/Signup.js:29-35 | Each toggle flips only its own flag. Toggling twice restores the screen. |
| Signup.SuccessMessage | src/components/Signup.js:117-126 | The success message is never empty. |
| Signup.SuccessMessageCases | src/components/Signup.js:117-126 | The reply string is used only when it contains "Successfully". Otherwise `message` is used if present, else the default. |
| Signup.FailureMessage | src/components/Signup.js:141-159 | The error message is never empty. |
| Signup.FailureMessagePrecedence | src/components/Signup.js:145-154 | 400 and 409 win over the server's message. For any other status, the message wins over the generic text. |
| Signup.SubmitOutcome | src/components/Signup.js:85-163 | Success iff the form is valid and the status is 200/201. It shows the tooltip, clears the error and resets all four fields. Otherwise an error is set and the form is kept. |
| Signup.NoDoubleSignup | src/components/Signup.js:132-137 | After a success the form is empty, so a second submit fails validation. |
| Profile.UsernameCheck | src/components/Profile.js:75-85 | The save passes iff the new name is not blank and a contact number is known. |
| Profile.UsernameCheckMessages | src/components/Profile.js:75-85 | A blank name is reported before a missing contact number. |
| Profile.PasswordCheck | src/components/Profile.js:178-206 | The change passes iff: the old password is not blank; the new one is not blank and has ≥ 6 characters; it equals the confirmation; and it differs from the old one. |
| Profile.PasswordCheckMessages | src/components/Profile.js:178-206 | Each message appears exactly when the earlier checks passed and its own check failed. |
| Profile.ShortPasswordSent | src/components/Profile.js:190-216 | The length check runs on the untrimmed password, but the trimmed one is sent. Five or more spaces followed by one letter pass every check and are sent as that letter alone. |
| Profile.ServerDataFirst | src/components/Profile.js:133-146 | A server body wins over every status text. Without one, the status text is used, and otherwise the handler's default. The message is never empty. |
| Profile.UnauthorizedTexts | src/components/Profile.js:248-249 | 401 has a text only in the password and delete handlers, and the two texts differ. |
| Profile.ProfileScreen.constructor | src/components/Profile.js:9-36 | All inputs start empty, the modals closed, and deletion at step one. |
| Profile.ProfileScreen.HandleEditProfile | src/components/Profile.js:60-65 | Editing starts from the current name, with the message cleared. |
| Profile.ProfileScreen.HandleCancelEdit | src/components/Profile.js:67-72 | Editing stops, with the input and the message cleared. |
| Profile.ProfileScreen.ApplyUsernameReply | src/components/Profile.js:107-150 | On an answer, the shown user and the stored user (if any) take the new name, the success text shows and editing ends. On a failure, only `ErrorMessage` shows, as an error. |
| Profile.ProfileScreen.HandleSaveUsername | src/components/Profile.js:74-153 | A failed check sends nothing, shows its message and leaves both users and the editing flag as they were. Otherwise the request carries the trimmed name and the contact number, and the reply then has the effect `ApplyUsernameReply` states. Only the users, the editing flag and the message can change. |
| Profile.ProfileScreen.HandleOpenPasswordModal | src/components/Profile.js:155-162 | Opens the modal with three empty inputs and no message. |
| Profile.ProfileScreen.HandleClosePasswordModal | src/components/Profile.js:164-167 | Closes the modal and hides all three passwords. |
| Profile.ProfileScreen.TogglePasswordVisibility | src/components/Profile.js:169-174 | Flips only the named field and leaves the other two unchanged. |
| Profile.ProfileScreen.ApplyPasswordReply | src/components/Profile.js:229-260 | An answer shows "Password updated successfully!"; a failure shows `ErrorMessage` for the password handler, as an error. |
| Profile.ProfileScreen.HandleUpdatePassword | src/components/Profile.js:176-264 | A failed check sends nothing and shows its message. Otherwise the request carries the contact number and both passwords trimmed, and the reply sets the success text or `ErrorMessage`. Only the message can change. |
| Profile.ProfileScreen.HandleOpenDeleteModal | src/components/Profile.js:268-275 | Back to step one, with empty inputs and no message. |
| Profile.ProfileScreen.HandleCloseDeleteModal | src/components/Profile.js:277-282 | Closes the modal and goes back to step one with empty inputs. |
| Profile.ProfileScreen.TypeDeleteConfirmation | src/components/Profile.js:465 | The confirmation box is on screen only in step one, and the invariant "step two implies phrase typed" is kept. |
| Profile.ProfileScreen.TypeDeletePassword | src/components/Profile.js:487 | Sets the step-two password. |
| Profile.ProfileScreen.ConfirmDeletePhrase | src/components/Profile.js:285-295 | Step two is reached iff the lower-cased confirmation is "delete my account". Otherwise the screen stays on step one and asks for the phrase. |
| Profile.ProfileScreen.ApplyLoginCheck | src/components/Profile.js:314-321 | The deletion proceeds iff the login check answered with anything other than the exact bad-credentials text. That text shows "Incorrect password. Please try again."; a failure shows `ErrorMessage` for the delete handler. |
| Profile.ProfileScreen.ApplyDeleteReply | src/components/Profile.js:334-372 | Only the exact "User deleted successfully" forgets the stored user and shows the redirect text. Any other answer shows its body, else the default. A failure shows `ErrorMessage`. |
| Profile.ProfileScreen.DeleteWithPassword | src/components/Profile.js:297-373 | Step two: a blank password sends nothing and asks for it. Otherwise the login check is sent with the password as typed, and the delete call follows iff the check passes. The message after each reply is as the list below states. |
| Profile.ProfileScreen.HandleDeleteAccount | src/components/Profile.js:284-375 | Per the list below, each case with its message. Step two is never left, and the invariant "step two implies phrase typed" is kept. |

`Login.LoginScreen.HandleSubmit` (Login.js:110-229):

- Invalid form: sets the validation error and sends nothing.
- String reply that is rejected: toast "Invalid Credentials".
- Any other string reply: stores the user with `SignedInUserId` and the backend or cleaned name, toasts "Welcome name!" and clears the form.
- Reply of another type: nothing beyond clearing the error.
- Failure: toast with `LoginFailureMessage`.

`Profile.ProfileScreen.HandleDeleteAccount` (Profile.js:284-375):

- Step one, lower-cased text is "delete my account": advances to step two, clears the message and sends nothing.
- Step one, any other text: asks for the phrase, as an error, and stays on step one.
- Step two, blank password: sends nothing and asks for the password.
- Login reply exactly "Invalid contact number or password": shows "Incorrect password. Please try again." and stops before the delete call.
- Failed login call: shows `ErrorMessage` for the delete handler and stops before the delete call.
- Delete reply exactly "User deleted successfully": the stored user is removed and the redirect text shows; the stored user is removed in no other case.
- Any other delete reply: its body, else the default. A failed delete call shows `ErrorMessage`.

## Left out

- **HTTP requests and local storage.** Replies and the stored user are parameters or fields.
  - The Login user-details lookup is one parameter; its own failure reads as "no details".
  - `localStorage.setItem('currentOrder')` and the login time stamp are not modelled.
- **Routing, rendering and UI.**
  - Navigation and React Router (`App.js`), and AuthContainer's toggle between Login and Signup.
  - JSX, CSS, `getFoodTags`, alerts, toast timers, loading flags and dark mode are UI only. The alert text is reduced to which alert shows.
- **Clock, timers and randomness.**
  - `new Date()`, `setInterval` and `setTimeout`: the clock is a parameter. The delayed message clearing and modal closing after a successful save or password change are not modelled.
  - `Math.random`: the six draws are a parameter.
- **Money.**
  - Floating point: amounts are exact reals. The IEEE rounding of `price * 0.05`, `toFixed`, `toString` and Home's `parseFloat` are not modelled.
- **Date and time.**
  - `Date` parsing of malformed dates (NaN comparisons) and time zones. The sort is modelled on well-formed dd-mm-yyyy dates and HH:MM times, or no date.
  - Days that do not exist in the calendar, such as 31-02-2024, are outside the model (`OrderHistory.WellFormedDate` bounds the day by the month's length, leap years included): engines either roll them over into the next month or reject them.
  - `Checkout.ValidClock`: years are restricted to four digits.
- **Text.**
  - `toLowerCase` and `trim` are modelled on ASCII; Unicode case mapping and Unicode white space are not modelled.
  - String length: JavaScript's `.length` counts UTF-16 code units, while the model counts characters. The length checks of `Login.ValidateForm`, `Signup.ValidateForm` and `Profile.PasswordCheck` agree with the source only on text without characters outside the Basic Multilingual Plane (an emoji counts 2 in the source, 1 here).
  - `charCodeAt` is the character's code, which is exact for the 10-digit contacts the hash receives.
- **In-place sort.** `OrderHistory.SortNewestFirst` models `Array.prototype.sort` by value, as a stable insertion sort on the comparator's key. The in-place reordering of the array is not modelled.
- **Missing user on the Profile screen.** The screen is modelled with a user present. Without one it renders a prompt, and its handlers throw on `userData.contactNumber`.
- **Field edits.** Login, Signup and Profile edit inputs through `onChange`. Only the handlers the core defines are modelled, plus the two delete-step inputs.
- Login.SignedInUserIdCases: a backend `userId` counts as present when it is a non-empty string; numeric ids are not modelled.
- Cart.Remove: requires the id to be in the cart, because the source throws on `existingItem.quantity` when it is absent.
- Checkout.MenuScreen.RemoveFromCart: requires the id to be in the cart, for the same reason; the screen only offers removal on a cart line.
- OrderHistory.HomeScreen.FetchUserOrders: requires the orders of an array reply to carry well-formed dates and times (see Date and time above).
- OrderHistory.SortNewestFirst: requires well-formed dates and times, for the same reason.
- Checkout.MenuScreen.HandleCheckout: requires a clock reading in range and six draws in 0..61, which `Date` and `Math.floor(Math.random() * 62)` always deliver.
- Opening.OpeningBoard.CheckOpeningTime: requires a clock reading in range, which `Date` always delivers.
- Profile.ProfileScreen.TypeDeleteConfirmation: requires step one, because the confirmation box is rendered only then.
