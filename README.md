# ShopEase storefront: a Dafny model of its core

ShopEase is a small single-page storefront. This project models the parts of
it that hold state or make decisions:

- **The session store** (`Session`, from `AuthContext.tsx`) holds several things: the
  credential registry seeded with one admin and one customer, the current
  identity, a logout timer, and the durable `user` key. It offers `login`,
  `signup`, `logout` and the expiry of the logout timer.
- **The catalog store** (`Catalog`, from `ProductContext.tsx`) loads the product list from the
  durable `products` key, or seeds it from the demo list. It adds, updates and
  deletes products, and writes the whole list back after every change.
- **The product listing** (`CatalogFilter`, from `ProductsPage.tsx`) does several things: it filters by a
  case-insensitive search over title and description, by category, and by
  a price band. It also builds the list of distinct categories, resets the filters, and decides who is
  offered "add to cart".
- **The product form** (`ProductFormPage`, from `ProductForm.tsx`) has five parts. It fills the
  form from the product being edited and sends visitors who are not admins away. It validates six
  fields. It submits, either as an add or as an update. It clears an error when its field is edited.
- **The sign-up page** (`SignupPage`, from `Signup.tsx`) runs its checks in order, then signs up, then
  redirects by role.
- **The route guard** (`Routes`, from `App.tsx`) is `ProtectedRoute`, plus the roles of the route table.
- **The wishlist page** (`WishlistPage`, from `Wishlist.tsx`) loads the list and removes items.

Browser storage is the class `Persistence.Storage`. It is a map from keys to typed
values, and several stores share it. A stored value of a different kind
than its reader expects stands for text on which `JSON.parse` fails.
Each component that updates state in place is a class. Its methods are proved equal to pure step functions (`LoginStep`, `Updated`,
`Deleted`, `Without`, ...), and the step functions carry the lemmas.

Timers are modelled as handles. `logoutTimer` is the handle the store
remembers. `scheduled` is the set of handles whose callback is still due.
`TimerInvariant` states that at most the remembered timer is due. Every operation keeps
that invariant, so at most one automatic logout is ever pending.

Random ids, the clock and the string-to-number parsers are not computed
by the model: they are parameters (`freshId`, `now`, `number`,
`parseFloat`, `parseInt`).

Where the code does more or less than its type names and comments suggest, the model follows the code:
- `updateProduct` spreads any `Partial<Product>`, so a patch can overwrite
  `id` and `createdAt` (`Catalog.Merge`). The form never sends those fields
  (`ProductFormPage.EditKeepsIdentity`).
- Editing a product through the form overwrites `createdBy` with the editor's id.
- The session store's `signup` accepts any password. Only the sign-up page
  enforces the six-character minimum.

## Model

| member | source | states |
|---|---|---|
| Persistence.Storage.Get | src/context/AuthContext.tsx:31 | A read finds a value exactly when the key is stored, and returns that value. |
| Persistence.Storage.Set | src/context/AuthContext.tsx:64 | A write replaces the value under one key and leaves every other key alone. |
| Persistence.Storage.Remove | src/context/AuthContext.tsx:113 | A removal drops one key and leaves every other key alone. |
| Session.FindCredential | src/context/AuthContext.tsx:54-56 | Returns the first record whose email and password both match, or none when no record matches. |
| Session.EmailInUse | src/context/AuthContext.tsx:86 | True exactly when some record in the registry has the email. |
| Session.IsAuthenticated | src/context/AuthContext.tsx:122 | The session is authenticated exactly when an identity is current. |
| Session.StartTimer | src/context/AuthContext.tsx:39-45 | The new handle becomes the remembered timer and is due. No other handle becomes due, and identity, storage and registry are untouched. |
| Session.Rehydrated | src/context/AuthContext.tsx:30-37 | The start-up effect. It never changes the registry or writes storage. Its outcomes are given by `RehydrationRestoresStoredUser`. |
| Session.LoginStep | src/context/AuthContext.tsx:47-72 | Login succeeds exactly when a record matches both fields. Loading ends and the registry is unchanged. On success the user is authenticated and stored, the error is cleared, and a new expiry is armed. On failure identity, storage and due timers are unchanged. |
| Session.SignupStep | src/context/AuthContext.tsx:74-109 | Signup succeeds exactly when the email is not registered. On success the registry grows by one, the new identity is current and stored under `user`, the error is cleared, and a new expiry is armed. On failure registry, identity and storage are unchanged. Loading ends either way. |
| Session.LoggedOut | src/context/AuthContext.tsx:111-115 | Afterwards nobody is authenticated and the `user` key is gone. Every other stored key keeps its value, the registry is unchanged, and no timer becomes due. |
| Session.Expired | src/context/AuthContext.tsx:41-43 | After the timer `t` fires it is no longer due, nobody is authenticated and the `user` key is gone. |
| Session.LoginWithoutMatchFails | src/context/AuthContext.tsx:47-72 | With no matching record, login fails with "Invalid email or password". That error is recorded and loading ends. Identity, storage, timer and registry are unchanged. |
| Session.LoginUsesFirstMatch | src/context/AuthContext.tsx:54-65 | A successful login makes the first matching record, without its password, the current identity. It stores the same identity under `user` and leaves the registry as it was. |
| Session.LoginOkOnlyWithMatch | src/context/AuthContext.tsx:54-63 | A login that succeeds has a record matching both email and password. |
| Session.SeededAdminLogin | src/context/AuthContext.tsx:5-20 | In the seeded registry the admin's credentials log in with the admin role, and a wrong password is refused. |
| Session.SignupDuplicateFails | src/context/AuthContext.tsx:84-108 | Signing up with an email already registered fails with "User with this email already exists". Only the error and the loading flag change. |
| Session.FindAppendedCredential | src/context/AuthContext.tsx:54-56 | A record appended behind records with other emails is the one the lookup returns for its own email and password. |
| Session.SignupThenLogin | src/context/AuthContext.tsx:86-101 | A successful signup appends exactly the new record to the registry. Logging in again with that email and password then succeeds as the same identity and role. |
| Session.LogoutIdempotent | src/context/AuthContext.tsx:111-115 | Logout clears the identity and removes the durable key. Logging out twice is the same as logging out once. |
| Session.SuccessArmsOneExpiry | src/context/AuthContext.tsx:64-102 | After a successful login or signup exactly one expiry is due: the one just armed. |
| Session.AtMostOnePending | src/context/AuthContext.tsx:39-45 | Under the timer invariant at most one expiry is due. |
| Session.StartTimerReplaces | src/context/AuthContext.tsx:39-45 | Arming the timer cancels the remembered one, so afterwards exactly the new handle is due. The invariant holds again. |
| Session.ExpiryIsLogout | src/context/AuthContext.tsx:41-43 | When the pending timer fires, the state is the logged-out state and nothing stays due. |
| Session.OperationsKeepTimerInvariant | src/context/AuthContext.tsx:30-115 | Rehydration, login, signup, logout and expiry each keep the timer invariant. |
| Session.RehydrationRestoresStoredUser | src/context/AuthContext.tsx:30-37 | At start-up a stored identity becomes current and one timer is armed. With no stored value the store is anonymous and not loading. |
| Session.SessionStore.constructor | src/context/AuthContext.tsx:24-37 | The mounted store is the seeded registry after rehydration from storage. |
| Session.SessionStore.StartLogoutTimer | src/context/AuthContext.tsx:39-45 | The in-place timer step equals the pure `StartTimer` step. |
| Session.SessionStore.Login | src/context/AuthContext.tsx:47-72 | The new state and outcome are those of `LoginStep`. The timer invariant is kept. |
| Session.SessionStore.Signup | src/context/AuthContext.tsx:74-109 | The new state and outcome are those of `SignupStep`. The timer invariant is kept. |
| Session.SessionStore.Logout | src/context/AuthContext.tsx:111-115 | The new state is `LoggedOut` of the old one. The timer invariant is kept. |
| Session.SessionStore.ExpiryFires | src/context/AuthContext.tsx:41-43 | A due timer's callback leaves the store logged out. |
| Catalog.Merge | src/context/ProductContext.tsx:55 | The spread `{ ...product, ...updatedFields }`. Its field-by-field behaviour is stated by `MergeOverrides`. |
| Catalog.Updated | src/context/ProductContext.tsx:54-56 | The `map` of `updateProduct`. Its behaviour is stated by `UpdatedPointwise` and `UpdateUnknownIdIsNoop`. |
| Catalog.Deleted | src/context/ProductContext.tsx:69 | The `filter` of `deleteProduct`. Its behaviour is stated by `DeleteKeepsOthers`. |
| Catalog.NewProduct | src/context/ProductContext.tsx:35-39 | A new product carries every caller-supplied field unchanged, plus the given id and creation time. |
| Catalog.MergeOverrides | src/context/ProductContext.tsx:55 | For each of the nine fields, a value the patch gives replaces the record's, and a field it omits keeps the record's value. So an empty patch changes nothing. |
| Catalog.UpdatedPointwise | src/context/ProductContext.tsx:54-56 | The length is unchanged. Each product with the id is merged with the patch, and every other product is untouched. |
| Catalog.UpdateUnknownIdIsNoop | src/context/ProductContext.tsx:54-56 | Updating an id that is not in the list leaves the list unchanged. |
| Catalog.DeleteKeepsOthers | src/context/ProductContext.tsx:69 | After a delete no product has the id. Every other product stays, as many times as it occurred, in its order. Deleting an absent id changes nothing. |
| Catalog.DeleteThenUpdateStaysDeleted | src/context/ProductContext.tsx:52-77 | Updating an id after deleting it changes nothing. |
| Catalog.AddKeepsIdsUnique | src/context/ProductContext.tsx:35-41 | Appending a product with a fresh id keeps ids unique. |
| Catalog.DeleteKeepsIdsUnique | src/context/ProductContext.tsx:69 | Deleting keeps ids unique. |
| Catalog.ProductStore.constructor | src/context/ProductContext.tsx:12-31 | A stored list is loaded and storage is not touched. With nothing stored, the demo list is both shown and written. A stored value that does not parse leaves the list empty and sets "Failed to load products". Loading always ends. |
| Catalog.ProductStore.AddProduct | src/context/ProductContext.tsx:33-50 | The new product is appended with its id and creation time, and the whole list is written back. |
| Catalog.ProductStore.UpdateProduct | src/context/ProductContext.tsx:52-65 | The list becomes `Updated` and is written back. |
| Catalog.ProductStore.DeleteProduct | src/context/ProductContext.tsx:67-77 | The list becomes `Deleted` and is written back. |
| Catalog.Reload | src/context/ProductContext.tsx:12-21 | A store mounted after any sequence of changes sees exactly the list the previous store last held, and storage is not touched. |
| CatalogFilter.Lower | src/pages/ProductsPage.tsx:21-22 | Lower-casing keeps the length and maps each character on its own: A to Z become a to z, and every other character is unchanged. |
| CatalogFilter.ContainsIffOccurs | src/pages/ProductsPage.tsx:21-22 | `includes` holds exactly when the needle occurs at some position of the text. |
| CatalogFilter.Matches | src/pages/ProductsPage.tsx:20-26 | The per-product test: the lower-cased title or description contains the lower-cased term, the category is unset or equal, and the price lies in the range. |
| CatalogFilter.Filtered | src/pages/ProductsPage.tsx:20-27 | `filteredProducts`. Its behaviour is stated by `FilteredSpec`. |
| CatalogFilter.Contains | src/pages/ProductsPage.tsx:21-22 | `includes`. It is tied to positional occurrence by `ContainsIffOccurs`. |
| CatalogFilter.Reset | src/pages/ProductsPage.tsx:142-144 | The "Reset Filters" handler replaces whatever inputs were set with the initial ones. |
| CatalogFilter.LowerIdempotent | src/pages/ProductsPage.tsx:21-22 | Lower-casing twice is the same as lower-casing once. |
| CatalogFilter.SearchIgnoresCase | src/pages/ProductsPage.tsx:21-22 | Two search terms equal after lower-casing show the same products. Changing the case of a product's title and description does not change whether it is shown. |
| CatalogFilter.FilteredSpec | src/pages/ProductsPage.tsx:20-27 | The shown products are exactly the listed products that match all three conditions, each as many times as it is listed, in list order. |
| CatalogFilter.ResetShowsPriceBand | src/pages/ProductsPage.tsx:142-144 | Reset restores the initial filters, under which exactly the products priced from 0 to 1000 are shown. |
| CatalogFilter.EmptyRangeShowsNothing | src/pages/ProductsPage.tsx:24 | A minimum above the maximum shows nothing. |
| CatalogFilter.CategoryNarrows | src/pages/ProductsPage.tsx:23 | Choosing a category never adds a product to what "All Categories" shows. |
| CatalogFilter.FilteredIdempotent | src/pages/ProductsPage.tsx:20-27 | Filtering an already-filtered list changes nothing. |
| CatalogFilter.FirstOccurrence | src/pages/ProductsPage.tsx:17 | Gives the first index holding the category, or the length when the category is absent. |
| CatalogFilter.FirstOccurrenceOfPrefix | src/pages/ProductsPage.tsx:17 | A category's first occurrence found in a prefix is its first occurrence in the whole list. |
| CatalogFilter.Categories | src/pages/ProductsPage.tsx:17 | Lists every occurring category once, in order of first occurrence. |
| CatalogFilter.AddToCartMatchesCustomerRoute | src/pages/ProductsPage.tsx:273 | "Add to cart" is offered exactly to the users the customer route admits. |
| Routes.Guard | src/App.tsx:24-41 | Anonymous users go to `/login`. An authenticated user with the wrong role goes to `/`. Everyone else sees the page. Each case is stated as an if-and-only-if. |
| Routes.Protection | src/App.tsx:53-104 | The route table: for each page, whether it is wrapped in `ProtectedRoute` and with which role. |
| Routes.Admission | src/App.tsx:53-104 | The guard's decision for a page and a user. Its meaning is stated by `RouteTableRoles`. |
| Routes.RouteTableRoles | src/App.tsx:53-104 | The four admin routes admit exactly admins, the customer dashboard admits exactly customers, the public routes admit everyone, and protected routes send anonymous users to `/login`. |
| ProductFormPage.FindProduct | src/pages/admin/ProductForm.tsx:38 | Gives the index of the first product with the id, or none exactly when no product has it. |
| ProductFormPage.FormOf | src/pages/admin/ProductForm.tsx:40-47 | The form filled from a product, with price and stock converted to text. |
| ProductFormPage.AdminRedirect | src/pages/admin/ProductForm.tsx:54-58 | The page stays exactly when the admin-only guard would render. Otherwise the visitor is sent to `/`. |
| ProductFormPage.UnchangedEditOnlyRestamps | src/pages/admin/ProductForm.tsx:36-93 | Opening a product for editing and submitting it unchanged rewrites only `createdBy`, which becomes the editor's id. This holds when the number conversions read back what they wrote. |
| ProductFormPage.Trim | src/pages/admin/ProductForm.tsx:62 | `trim`. Its meaning is stated by `BlankIffAllSpace`. |
| ProductFormPage.IsHttpUrl | src/pages/admin/ProductForm.tsx:67 | The regular expression `^https?://.+`, written out. Samples are checked by `UrlExamples`. |
| ProductFormPage.Invalid | src/pages/admin/ProductForm.tsx:62-70 | The six field checks of `validateForm`, one per field. |
| ProductFormPage.SubmittedDraft | src/pages/admin/ProductForm.tsx:82-90 | `productData`: the typed fields the form submits, with `createdBy` set to the user's id or empty. |
| ProductFormPage.WithField | src/pages/admin/ProductForm.tsx:113 | An input change sets its own field and keeps the other five. |
| ProductFormPage.TrimStartEmptyIffAllSpace | src/pages/admin/ProductForm.tsx:62 | Trimming the start leaves nothing exactly when every character is JavaScript whitespace. |
| ProductFormPage.BlankIffAllSpace | src/pages/admin/ProductForm.tsx:62 | `!s.trim()` holds exactly when every character is JavaScript whitespace. |
| ProductFormPage.ImageErrorIffNotUrl | src/pages/admin/ProductForm.tsx:67-68 | The image error is set exactly when the value does not match `^https?://.+`. |
| ProductFormPage.UrlExamples | src/pages/admin/ProductForm.tsx:67 | Accepts `http://x` and an https address. Refuses a bare scheme, another scheme, a newline after the scheme and a leading space. |
| ProductFormPage.PatchOf | src/pages/admin/ProductForm.tsx:82-93 | The patch the form sends never carries an id or a creation time. |
| ProductFormPage.EditKeepsIdentity | src/pages/admin/ProductForm.tsx:92-93 | An edit keeps the product's id and creation time and takes every submitted field. |
| ProductFormPage.CollectErrors | src/pages/admin/ProductForm.tsx:60-71 | A field has an entry exactly when its check fails, and the entry is that field's message. |
| ProductFormPage.NoErrorsIffValid | src/pages/admin/ProductForm.tsx:72-73 | The error record is empty exactly when all six checks pass. |
| ProductFormPage.ProductForm.constructor | src/pages/admin/ProductForm.tsx:17-25 | The form starts empty, with category Electronics and no errors. |
| ProductFormPage.ProductForm.PrefillFromCatalog | src/pages/admin/ProductForm.tsx:36-52 | On the edit route the form is filled from the first product with the routed id. When there is none, the page leaves for `/admin/products`. Off the edit route nothing changes. Errors are untouched. |
| ProductFormPage.ProductForm.ValidateForm | src/pages/admin/ProductForm.tsx:60-74 | The errors become exactly the failing fields' messages, and the result is true exactly when the form is valid. |
| ProductFormPage.ProductForm.HandleSubmit | src/pages/admin/ProductForm.tsx:76-107 | An invalid form changes no products and navigates nowhere. A valid form updates the routed product or appends a new one. It rewrites only the `products` key and goes to `/admin/products`. On both paths the store's error and loading flags are kept, and every error entry holds its field's message. |
| ProductFormPage.ProductForm.HandleInputChange | src/pages/admin/ProductForm.tsx:109-118 | The field takes the value. A non-empty error on that field is blanked. Every other error is kept. |
| SignupPage.FirstProblem | src/pages/auth/Signup.tsx:25-38 | The first failing check is reported, in the order missing field, then mismatch, then too short. The form passes exactly when all are filled, the passwords agree and the password has at least six characters. |
| SignupPage.Landing | src/pages/auth/Signup.tsx:42-46 | Admins are sent to the admin dashboard and customers to the customer dashboard. |
| SignupPage.SignupLandsOnAdmittedDashboard | src/pages/auth/Signup.tsx:42-46 | After a successful signup the route guard admits the new user to the dashboard the page navigates to, and turns anonymous users away from it. |
| SignupPage.HandleSubmit | src/pages/auth/Signup.tsx:21-50 | A failing check shows its message and does not call `signup`. Otherwise the session changes as `SignupStep`. On success the page goes to the role's dashboard, and on failure it shows the store's message. |
| WishlistPage.Without | src/pages/customer/Wishlist.tsx:21 | `wishlist.filter(item => item.id !== id)`. Its behaviour is stated by `WithoutSpec`. |
| WishlistPage.WithoutSpec | src/pages/customer/Wishlist.tsx:21 | After a removal no item has the id. The other items stay, as many times as they occurred, in order. Removing an absent id changes nothing. |
| WishlistPage.Wishlist.constructor | src/pages/customer/Wishlist.tsx:13-18 | A stored wishlist is loaded. Anything else leaves the list empty. |
| WishlistPage.Wishlist.RemoveFromWishlist | src/pages/customer/Wishlist.tsx:20-24 | The list becomes `Without(old, id)` and is written back under `wishlist`. |

## Left out

- Rendering, styling, toasts, alerts and the mobile filter panel are presentation and carry no state worth proving.
- The timer delays are not modelled: the 500 ms simulated latency and the logout delay of 60 * 90 * 2000 ms. Only which timer is due is modelled, not when it fires.
- Stale React closures are not modelled. The model treats every handler as seeing the store's latest state.
- React batching of state updates is not modelled. Each handler is one atomic step.
- `Math.random` ids and `new Date()` are parameters (`freshId`, `now`), so nothing about the format of an id is modelled. A fresh product id is not proved distinct from existing ones.
- JSON that parses but has the wrong shape is not modelled. A stored `user`, `products` or `wishlist` value of the wrong shape is accepted by the source with no error: the session takes it as the identity and arms the timer, the catalog shows it, and the wishlist loads it. The model has no such values.
- Serialisation is not modelled. `JSON.stringify` and `JSON.parse` are abstracted into typed storage values. After a round trip a `Date` becomes a string, and the model does not show this.
- An empty stored string is treated by the source as absent. The model does not distinguish it from an absent key.
- Session.Rehydrated: a stored user that does not parse makes `JSON.parse` throw inside the start-up effect, so the model leaves `isLoading` true. How React reports the exception is not modelled.
- WishlistPage.Wishlist.constructor: a stored wishlist that does not parse is modelled as leaving the list empty. The uncaught exception itself is not modelled.
- Prices are `real`, with no floating-point rounding. `Number`, `parseFloat` and `parseInt` are parameters. NaN is modelled only as the `None` result of `number`.
- CatalogFilter.Lower: lower-cases ASCII letters only. Full Unicode case mapping is not modelled.
- String lengths count Dafny characters, not UTF-16 code units.
- The demo product list (`src/data/demoProducts`) is not part of this model. It is a parameter of the catalog store.
- ProductFormPage.AdminRedirect: the role-check effect is modelled as the target it navigates to. The navigation itself is outside the model.
- The error paths of `addProduct`, `updateProduct` and `deleteProduct` are not modelled. Their `catch` blocks set "Failed to …" only on exceptions that the modelled code cannot raise.
- The login pages and the forgot-password page are not part of this model, nor is `server/index.ts`.
- The credential registry is a field of each session store instance rather than a module-level array shared by all providers.
- The `isSubmitting` flag of the product form is not modelled. It only disables the button while the submission is in progress.
