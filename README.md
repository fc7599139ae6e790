# SCA inventory system — a Dafny model

The SCA inventory system tracks production batches ("lotes") of a small
factory's products and dispatches them first-in, first-out. A React
front end offers these screens:

- a dashboard;
- batch entry and batch dispatch;
- reports with a CSV export;
- product and user administration.

A Hono server keeps every record in a key-value store under the keys
`user:<id>`, `product:<id>`, `batch:<id>` and `session:<token>`.

This project models the FIFO bookkeeping the screens are built on, and the
backend's key-value state machine, and proves what they promise:

- the oldest batch with stock is the one suggested for dispatch;
- the expiration windows and status thresholds;
- the per-product and per-category totals;
- the report filter and the CSV layout;
- the form guards and resets;
- the search boxes;
- the user toggle and initials;
- on the server: the session check, the ordered login decision, role-based
  access, merges that keep the path id, the cascade on product delete,
  password stripping, and the one-time seeding.

Modules, one per file:

- `Wrappers`, `Seqs`, `Text`: `Option`, the list operations
  (`filter`, `reduce` sums, the stable sort) and the string operations
  (case mapping, `includes`, `split`/`join`, decimal text).
- `Inventory`: the App component — the records, `getOldestBatch`,
  `getExpiringBatches`, the inventory actions as a class `InventoryApp`
  over the batch and product lists, `logout`, and the role-filtered menu.
- `Dashboard`, `InventoryExit`, `Reports`, `ProductManagement`,
  `InventoryEntry`, `UserManagement`: one per screen. Where the screen keeps
  form state, it is a class whose methods are the handlers.
- `Server`: the backend as a class `KvBackend` over
  `store: map<string, Record>`, where a `Record` is a JSON object with text
  and number values.

Dates are millisecond timestamps (`86400000` per day). Clock readings, the
ids the server assigns, session tokens and the date formatter of the CSV
export are parameters.

## Model

| member | source | states |
|---|---|---|
| `Inventory.Candidates` | src/App.tsx:251-252 | exactly the product's batches with quantity above zero |
| `Inventory.OldestBatch` | src/App.tsx:250-256 | `None` exactly when no batch of the product has stock; otherwise a batch of the product with stock whose entry date is no later than any other such batch's |
| `Inventory.OldestBatchIsHeadOfSortedCandidates` | src/App.tsx:251-255 | the result is the head of the stable sort of the candidates by entry date, and every candidate listed before it entered strictly later (ties go to the earlier in the list) |
| `Inventory.ExpiringBatches` | src/App.tsx:241-248 | exactly the batches expiring in `[today, today + days * 86400000]`, whatever their quantity, as an order-preserving sub-list |
| `Inventory.ExpiringBatchesMonotone` | src/App.tsx:243-247 | a wider window returns a super-list of a narrower one |
| `Inventory.DispatchUnknownId` | src/App.tsx:192-193 | a dispatch for an id the list does not hold leaves the list unchanged |
| `Inventory.DispatchEmptiesBatch` | src/App.tsx:195-198 | taking all that is left (or more) removes the batch; the others keep their order, ids stay distinct, the id is gone, the stock falls by what the batch held |
| `Inventory.DispatchLowersBatch` | src/App.tsx:195-201 | otherwise the batch's quantity is lowered in place by `q`, every other batch is untouched, the stock falls by `q` |
| `Inventory.PutBatchEffect` | src/App.tsx:176-189 | storing a batch under its id keeps ids distinct, and a fresh id appends the batch |
| `Inventory.PutProductEffect` | src/App.tsx:211-220 | storing a product under its id keeps ids distinct, and a fresh id appends the product |
| `Inventory.InventoryApp.constructor` | src/App.tsx:91-94 | no user, the login page, empty lists |
| `Inventory.InventoryApp.CompleteLogin` | src/App.tsx:139-147 | a successful login sets the user, opens the dashboard and loads the fetched lists |
| `Inventory.InventoryApp.Logout` | src/App.tsx:158-168 | whatever the server answers: no user, the login page, both lists empty |
| `Inventory.InventoryApp.RemoveBatchQuantity` | src/App.tsx:190-209 | `true` exactly when the id is listed and the server accepts; then the new list is the dispatch function's result (removal or lowering, others untouched), otherwise it is unchanged; ids stay distinct |
| `Inventory.InventoryApp.AddBatch` | src/App.tsx:176-189 | the batch is stored under the id the server gives it |
| `Inventory.InventoryApp.AddProduct` | src/App.tsx:211-220 | the product is stored under the id the server gives it |
| `Inventory.InventoryApp.UpdateProduct` | src/App.tsx:221-230 | an existing id gets the new fields and keeps its id; an unknown id (the server's 404) changes nothing |
| `Inventory.InventoryApp.DeleteProduct` | src/App.tsx:231-240 | the product and every batch of it are gone, everything else stays in order |
| `Inventory.FilteredMenuItems` | src/App.tsx:283-292 | exactly the menu entries whose roles include the user's, in menu order |
| `Inventory.AdminSeesWholeMenu` | src/App.tsx:284-289 | an administrator sees the whole menu |
| `Inventory.UserSeesOperationalPages` | src/App.tsx:284-292 | a user sees exactly dashboard, entry, exit and reports |
| `Inventory.UserNeverSeesAdministration` | src/App.tsx:288-292 | a user never sees the product or user administration |
| `Dashboard.ActiveBatches` | src/components/Dashboard.tsx:35 | exactly the batches with quantity above zero, in order |
| `Dashboard.CriticalBatches` | src/components/Dashboard.tsx:37-41 | exactly the active batches expiring within seven days from now, in list order |
| `Dashboard.ExpiringSoonBatches` | src/components/Dashboard.tsx:43-47 | exactly the active batches expiring after seven days and within thirty |
| `Dashboard.CriticalAndExpiringPartitionTheMonth` | src/components/Dashboard.tsx:38-47 | the two lists are disjoint, and together they hold exactly the active batches of the 30-day window |
| `Dashboard.ProductTotal` | src/components/Dashboard.tsx:91-92 | the product's units over its active batches: never negative, zero exactly when it has no batch with stock |
| `Dashboard.NoStockIffNoOldestBatch` | src/components/Dashboard.tsx:91-92 | a product's total is zero exactly when it has no oldest batch to dispatch |
| `Dashboard.ChartLabel` | src/components/Dashboard.tsx:94 | names of up to fifteen characters are kept; longer ones become their first fifteen and `...` |
| `Dashboard.ProductBars` | src/components/Dashboard.tsx:90-96 | one bar per product, in catalogue order, each with the product's total; the bars add up to the catalogue's stock |
| `Dashboard.ProductData` | src/components/Dashboard.tsx:90-97 | the bars of exactly the products with stock, each positive, adding up to the catalogue's stock |
| `Dashboard.CategoryData` | src/components/Dashboard.tsx:99-113 | each category at most once, each value positive and equal to its products' stock, a slice for every category with stock and no other, and the slices add up to the product bars |
| `Dashboard.FoldCategories` | src/components/Dashboard.tsx:100-113 | the reduce, as a loop over the products, for any non-negative stock figure: the same facts by loop invariant |
| `Dashboard.CategoryStepFolds` | src/components/Dashboard.tsx:100-112 | the reduce callback applied to the next product keeps each category once with its stock so far, a slice for exactly the categories with stock so far, and all the stock so far |
| `Dashboard.RecentBatches` | src/components/Dashboard.tsx:299-301 | at most five active batches (fewer only when fewer exist), each at most as often as it is listed, from the newest entry to the oldest; the batches of one entry date are the first of that date in list order, as the stable sort keeps them |
| `Dashboard.RecentBatchesAreTheNewest` | src/components/Dashboard.tsx:299-301 | no active batch left off the list entered later than one on it |
| `InventoryExit.DaysUntilExpiration` | src/components/InventoryExit.tsx:53-59 | the ceiling of the remaining time in days: `(d - 1) * 86400000 < exp - today <= d * 86400000` |
| `InventoryExit.DaysAtMost` | src/components/InventoryExit.tsx:53-59 | at most `n` days are left exactly when the expiration is at most `n` days away |
| `InventoryExit.GetExpirationStatus` | src/components/InventoryExit.tsx:61-66 | critical up to 7 days, urgent from 8 to 15, attention from 16 to 30, normal above, each as an if-and-only-if |
| `InventoryExit.StatusMonotone` | src/components/InventoryExit.tsx:61-66 | fewer days never give a less pressing status |
| `InventoryExit.CriticalWindowIsCriticalStatus` | src/components/InventoryExit.tsx:53-62 | a batch in the dashboard's seven-day window shows the critical status |
| `InventoryExit.ProductOptionDisabled` | src/components/InventoryExit.tsx:129-134 | an option is disabled exactly when the product has no oldest batch, that is, no stock |
| `InventoryExit.SuggestedBatch` | src/components/InventoryExit.tsx:21 | none without a product, else the product's oldest batch |
| `InventoryExit.ExitForm.constructor` | src/components/InventoryExit.tsx:17-19 | no product, an empty quantity, no banner |
| `InventoryExit.ExitForm.SelectProduct` | src/components/InventoryExit.tsx:119-123 | choosing a product clears the quantity and the banner |
| `InventoryExit.ExitForm.SetQuantity` | src/components/InventoryExit.tsx:228 | the field holds what was typed |
| `InventoryExit.ExitForm.HandleDispatch` | src/components/InventoryExit.tsx:24-51 | a missing field or suggested batch, or a quantity above the suggested batch's, changes nothing; otherwise the field is cleared and the banner shown whatever the server answers, and exactly that quantity leaves the product's oldest batch when it accepts |
| `InventoryExit.ExitForm.Send` | src/components/InventoryExit.tsx:38-46 | the request for a listed batch is not awaited: the list is dispatched when the server accepts and unchanged otherwise, and in both cases the field is cleared and the banner shown |
| `InventoryExit.ExitForm.Cancel` | src/components/InventoryExit.tsx:252-259 | the cancel button clears the product, the quantity and the banner |
| `InventoryExit.ExitForm.DismissSuccess` | src/components/InventoryExit.tsx:48-50 | the banner is hidden |
| `InventoryExit.AcceptedDispatchTakesExactly` | src/components/InventoryExit.tsx:34-39 | an accepted dispatch lowers or removes the oldest batch and the stock falls by exactly the quantity |
| `Reports.FilteredBatches` | src/components/Reports.tsx:22-44 | exactly the batches of the chosen product (or any), whose batch number contains the text whatever its case, entered within the inclusive date bounds, in list order |
| `Reports.ClearedFiltersKeepEverything` | src/components/Reports.tsx:222 | with the filters cleared, the report holds every batch, in order |
| `Reports.FiltersOnlyNarrow` | src/components/Reports.tsx:23-41 | every kept batch is of the chosen product, contains the batch text and lies within the bounds |
| `Reports.ReportStatus` | src/components/Reports.tsx:51 | critical up to 7 days, attention up to 30, normal above, each as an if-and-only-if |
| `Reports.ReportStatusFoldsUrgent` | src/components/Reports.tsx:90-94 | the report's status is the dispatch screen's with "Urgente" read as "Atención" |
| `Reports.UniqueProductsBounded` | src/components/Reports.tsx:98 | never more distinct products than filtered batches, and at least one once there is a batch |
| `Reports.CriticalCount` | src/components/Reports.tsx:99 | never more than the filtered batches |
| `Reports.CriticalCountMatchesStatus` | src/components/Reports.tsx:99 | the critical count counts exactly the batches the export marks critical |
| `Reports.TotalValuePositive` | src/components/Reports.tsx:97 | with stock in every batch, the total is zero exactly when nothing is filtered |
| `Reports.TableOrder` | src/components/Reports.tsx:261 | a permutation of the filtered batches, ascending by entry date, and stable: the batches of any one entry date keep their filtered order |
| `Reports.CsvRow` | src/components/Reports.tsx:49-61 | one field per header column |
| `Reports.CsvLines` | src/components/Reports.tsx:65 | one comma-joined line per batch, in order |
| `Reports.CsvHasOneLinePerBatch` | src/components/Reports.tsx:63-66 | without line breaks in the fields, the CSV splits into the header and exactly one line per filtered batch, in table order |
| `Reports.CsvLineSplitsIntoFields` | src/components/Reports.tsx:53-65 | without commas in the fields, each line splits back into its batch's six fields |
| `ProductManagement.FilteredProducts` | src/components/ProductManagement.tsx:25-28 | exactly the products whose name or category contains the term ignoring case, in catalogue order |
| `ProductManagement.EmptySearchShowsAll` | src/components/ProductManagement.tsx:25-28 | an empty term lists the whole catalogue |
| `ProductManagement.SearchIgnoresCase` | src/components/ProductManagement.tsx:26-27 | terms that lower-case alike list the same products |
| `ProductManagement.TypingNarrows` | src/components/ProductManagement.tsx:25-28 | extending the term only narrows the list |
| `ProductManagement.GetProductStats` | src/components/ProductManagement.tsx:71-76 | the count is the number of the product's batches (the others make up the rest of the list), zero exactly when there is none; the total sums the quantity of every batch of the product, emptied or not |
| `ProductManagement.StatsOfOneMoreBatch` | src/components/ProductManagement.tsx:71-76 | no batches give zero and zero; one more batch of the product adds its quantity and one to the count, a batch of another product changes nothing |
| `ProductManagement.StatsTotalIsChartTotal` | src/components/ProductManagement.tsx:73 | with non-negative quantities the table's total equals the dashboard's bar |
| `ProductManagement.ProductForm.constructor` | src/components/ProductManagement.tsx:17-23 | empty fields, nothing edited, the dialog closed |
| `ProductManagement.ProductForm.HandleEdit` | src/components/ProductManagement.tsx:51-58 | the form shows the product's fields and edits it |
| `ProductManagement.ProductForm.CancelEdit` | src/components/ProductManagement.tsx:268-273 | nothing edited, empty fields |
| `ProductManagement.ProductForm.HandleSubmit` | src/components/ProductManagement.tsx:30-49 | an empty field changes nothing; an edit replaces that product's fields and adds nothing; otherwise a product is added and the dialog closed; the form is cleared |
| `ProductManagement.HandleDelete` | src/components/ProductManagement.tsx:60-69 | a product with batches is kept and their number given; otherwise exactly that product goes and the batches stay |
| `InventoryEntry.PreviousBatch` | src/components/InventoryEntry.tsx:36-40 | none exactly when the product has no batch; otherwise a batch of the product, emptied or not, with the latest entry date |
| `InventoryEntry.PreviousBatchIsHeadOfSorted` | src/components/InventoryEntry.tsx:36-40 | the result is the head of the stable newest-first sort, so among equal dates the earliest listed |
| `InventoryEntry.EntryMessageShape` | src/components/InventoryEntry.tsx:52-57 | the message opens with "Lote … registrado correctamente" and ends in "(FIFO)" exactly when a previous batch exists |
| `InventoryEntry.NewBatchQueuesBehind` | src/components/InventoryEntry.tsx:42-54 | a batch with a fresh id entered no earlier than the product's others is appended, and the oldest batch to dispatch stays the same |
| `InventoryEntry.NewBatchIsTheNewest` | src/components/InventoryEntry.tsx:36-40 | such a batch, or one entered the same day, is what the next entry names |
| `InventoryEntry.FindProduct` | src/components/InventoryEntry.tsx:32 | none exactly for an id not in the catalogue; otherwise the catalogue entry with that id |
| `InventoryEntry.EntryForm.constructor` | src/components/InventoryEntry.tsx:15-22 | empty fields, the entry date today, no message |
| `InventoryEntry.EntryForm.HandleSubmit` | src/components/InventoryEntry.tsx:24-74 | a missing field, or an unknown product, changes nothing; otherwise the batch with the catalogue name and the form's fields is stored, the FIFO message is shown, and the form is reset with the entry date at today |
| `InventoryEntry.EntryForm.Register` | src/components/InventoryEntry.tsx:42-71 | the accepted path: the batch stored, the message from the batches before the entry, the form reset |
| `InventoryEntry.EntryForm.DismissMessage` | src/components/InventoryEntry.tsx:73 | the message is cleared |
| `UserManagement.FilteredUsers` | src/components/UserManagement.tsx:59-62 | exactly the users whose name or email contains the term ignoring case, in order |
| `UserManagement.EmptyUserSearchShowsAll` | src/components/UserManagement.tsx:59-62 | an empty term lists every user |
| `UserManagement.UserSearchIgnoresCase` | src/components/UserManagement.tsx:60-61 | terms that lower-case alike list the same users |
| `UserManagement.ActiveCount` | src/components/UserManagement.tsx:263 | at most the total, and zero exactly when no user is active |
| `UserManagement.AdminCount` | src/components/UserManagement.tsx:273 | at most the total, and zero exactly when no user is an administrator |
| `UserManagement.ActiveAndInactiveMakeTotal` | src/components/UserManagement.tsx:253-263 | active and inactive users add up to the total |
| `UserManagement.RequestBody` | src/components/UserManagement.tsx:74-88 | an edit sends exactly name, email and role; a creation also sends the password |
| `UserManagement.EditKeepsOtherFields` | src/components/UserManagement.tsx:75-79 | an edit, merged by the server, sets name, email and role and keeps every other stored field, the password included |
| `UserManagement.UserForm.constructor` | src/components/UserManagement.tsx:32-37 | empty fields, role `user`, nothing edited, the dialog closed |
| `UserManagement.UserForm.HandleEdit` | src/components/UserManagement.tsx:103-111 | the form shows the user with an empty password |
| `UserManagement.UserForm.CancelEdit` | src/components/UserManagement.tsx:372-377 | nothing edited, the form at its defaults |
| `UserManagement.UserForm.Pending` | src/components/UserManagement.tsx:67-88 | no request exactly when name or email is empty, or the password is empty on a creation; an edit names the edited user's id, a creation carries the password |
| `UserManagement.UserForm.HandleSubmit` | src/components/UserManagement.tsx:64-101 | sends what the form holds; only an accepted request closes the edit or the dialog and resets the form |
| `UserManagement.ToggleRequest` | src/components/UserManagement.tsx:127-144 | nothing for an unknown id; otherwise the status of the first listed user with that id, flipped |
| `UserManagement.ToggleFlipsStoredStatus` | src/components/UserManagement.tsx:130-134 | the stored status flips and every other field but the id stays |
| `UserManagement.ToggleTwiceRestores` | src/components/UserManagement.tsx:130-134 | toggling twice gives back the stored record |
| `UserManagement.GetInitials` | src/components/UserManagement.tsx:146-153 | at most two characters, none a lower-case letter |
| `UserManagement.InitialsOfWords` | src/components/UserManagement.tsx:146-153 | for words joined by single spaces: the upper-cased first letters of the first two words, in order |
| `Server.Merged` | src/supabase/functions/server/index.tsx:406 | the updates win over the stored fields, the path id wins over both, nothing else is lost |
| `Server.StripPassword` | src/supabase/functions/server/index.tsx:312 | every field but the password |
| `Server.VerifyUser` | src/supabase/functions/server/index.tsx:41-72 | a user only for a present token with a stored session, and then a record stored under a `user:` key |
| `Server.FirstWithEmail` | src/supabase/functions/server/index.tsx:282 | none exactly when no user has the email; otherwise the first user with it in the enumeration |
| `Server.LoginDecision` | src/supabase/functions/server/index.tsx:284-300 | 401 for an unknown email or a wrong password, then 403 for an inactive user, otherwise admitted, each as an if-and-only-if |
| `Server.VerifyUserIsTheSessionsUser` | src/supabase/functions/server/index.tsx:59-67 | for any stored session, a user is returned exactly when a user record with the session's `userId` is stored, and it is that user; a deleted user's sessions stop passing |
| `Server.LoginThenVerify` | src/supabase/functions/server/index.tsx:303-308 | the session a login stores makes the session check return that user |
| `Server.GuestLoginThenVerify` | src/supabase/functions/server/index.tsx:251-262 | the same for the guest |
| `Server.LogoutEndsSession` | src/supabase/functions/server/index.tsx:328 | after logout the token passes no check |
| `Server.Shown` | src/supabase/functions/server/index.tsx:543-547 | users are shown without password, other records as stored |
| `Server.Created` | src/supabase/functions/server/index.tsx:565-570 | the new record carries the new id, and a new user the status `active` and the creation time; every other field of the body is kept (for products and batches also a `status` or `createdAt` sent in the body), and no other field is added |
| `Server.Initialized` | src/supabase/functions/server/index.tsx:80-82 | a store that holds users is left as it is; seeding keeps every key |
| `Server.InitializedHasUsers` | src/supabase/functions/server/index.tsx:86-107 | after seeding the store holds users |
| `Server.InitializeTwice` | src/supabase/functions/server/index.tsx:80-82 | a second initialisation changes nothing |
| `Server.KvBackend.GetByPrefix` | src/supabase/functions/server/index.tsx:80 | every entry under the prefix exactly once, with its stored value |
| `Server.KvBackend.Login` | src/supabase/functions/server/index.tsx:233-319 | guest credentials store the guest and its session; otherwise the decision for the user with the email, a session only when admitted, the reply without password |
| `Server.KvBackend.GuestLogin` | src/supabase/functions/server/index.tsx:240-266 | the guest and a session for it are stored, and the guest returned |
| `Server.KvBackend.PasswordLogin` | src/supabase/functions/server/index.tsx:268-314 | the matched user is a stored user with the email (none only when there is none); a failure leaves the store unchanged; success adds exactly one session |
| `Server.KvBackend.Logout` | src/supabase/functions/server/index.tsx:321-335 | 401 and no change without a token; otherwise exactly its session is removed |
| `Server.ListingOfEntries` | src/supabase/functions/server/index.tsx:356-365 | a full enumeration of a kind's prefix lists each stored record of the kind once, in its shown form, with a distinct stored key behind each |
| `Server.KvBackend.List` | src/supabase/functions/server/index.tsx:338-370 | refused without access (401 for products and batches, 403 for users unless administrator); otherwise one record per stored entry of the kind, each entry exactly once, users without passwords |
| `Server.KvBackend.Create` | src/supabase/functions/server/index.tsx:372-389 | refused without access (administrator for products and users, any user for batches) with the store unchanged; otherwise the created record stored under the new id |
| `Server.KvBackend.Update` | src/supabase/functions/server/index.tsx:391-414 | refused without access, 404 for a missing key, both with the store unchanged; otherwise the merge with the path id |
| `Server.KvBackend.Delete` | src/supabase/functions/server/index.tsx:416-440 | refused without access with the store unchanged; otherwise the key removed, and for a product every batch of it too |
| `Server.KvBackend.DeleteBatchesOf` | src/supabase/functions/server/index.tsx:425-432 | exactly the batches of the product are removed, all others untouched |
| `Server.KvBackend.InitializeData` | src/supabase/functions/server/index.tsx:75-185 | the store becomes the initialised store: seeded only when it held no user |
| `Server.KvBackend.SetEach` | src/supabase/functions/server/index.tsx:119-121 | each seed record stored under its id, in order |

Every route of `KvBackend` keeps `Valid()`: each record stored under
`user:`, `product:` or `batch:` carries the id of its key, and each
session names a user id. The list, update and delete routes for batches
(src/supabase/functions/server/index.tsx:443-532) and users
(src/supabase/functions/server/index.tsx:535-623) are the same members as
the product routes, with their own access rule and "not found" text.

## Left out

- The HTTP layer (`src/utils/api.ts`), the token cache in `localStorage`,
  and the Vercel proxies under `api/products`: they are I/O with no logic
  of their own.
- The login page, toasts, loading flags, chart colours and the rest of
  the JSX rendering.
- The inventory actions are modelled as the local list update that the
  refetch produces. The order the store lists records in after a refetch is
  not modelled: an added record is appended.
- Inventory.InventoryApp.RemoveBatchQuantity: `accepted` stands for the
  write and the refetch together. A write that succeeds followed by a failed
  refetch (the source then answers `false` while the store has changed) is
  not modelled.
- Inventory.InventoryApp.AddBatch: the product screen and the entry screen
  do not await the server. The model updates the lists as if the server
  accepted every request.
- Inventory.InventoryApp.AddProduct: the same as-accepted update. A refused
  create is rethrown without a refetch and leaves the lists as they were
  (src/App.tsx:211-220), which the model does not capture.
- Inventory.InventoryApp.UpdateProduct: the same as-accepted update, apart
  from the unknown id. A refused update leaves the lists as they were
  (src/App.tsx:221-230).
- Inventory.InventoryApp.DeleteProduct: the same as-accepted update. A refused
  delete leaves the lists as they were (src/App.tsx:231-240).
- The order of the dashboard's critical and expiring cards (sorted by
  expiration date for display, src/components/Dashboard.tsx:159 and 205).
- `parseInt` of the quantity fields: a field holds `None` while empty, or
  the integer typed.
- The browser's constraint validation (`min="1"`, `max`, the expiration date
  not before the entry date): the model accepts any integer, as the handlers
  do.
- JS `Date` parsing, time zones, and `toLocaleDateString`: dates are integer
  timestamps, and the CSV's date formatter is a parameter.
- InventoryEntry.EntryForm.HandleSubmit: the entry screen's guard does not
  test the entry date, so a cleared date field registers a batch with an
  empty `entryDate`. `new Date('')` is NaN, so the FIFO sorts' comparisons
  with that batch are NaN and its place in them is left to the engine. The
  model's entry date is always an integer, so that case does not arise.
- Floating-point numbers: quantities are integers.
- Reports.CsvLineSplitsIntoFields: the export does no quoting. A name, batch
  number or formatted date holding a comma or a line break breaks the CSV
  layout, so the layout lemmas require fields without them.
- InventoryEntry.NewBatchQueuesBehind: the entry date is not checked against
  the product's other batches. A back-dated entry still gets the message
  "Ubicado detrás del Lote X", but it is older than X and is dispatched
  first. The lemma states the condition under which the message is accurate.
- UserManagement.GetInitials: its contract gives the bound and the case. The
  exact letters are stated by `InitialsOfWords` only for names whose words
  are separated by single spaces.
- `Text.LowerChar` and `Text.UpperChar` map only the ASCII letters:
  `toLowerCase` and `toUpperCase` on accented letters (`á`/`Á`) are not
  modelled, so the searches and the initials treat them as distinct
  characters.
- A user's `createdAt` is not carried by the user screen. The screen's
  `handleDelete` is the server's `Delete` followed by a refetch. The role
  select of the user form is not modelled.
- Server.KvBackend.GetByPrefix: the store module is not part of this model.
  Its enumeration order is left open, so when two users share an email the
  login may match either. The model gives `getByPrefix` entries with key and
  value, which the product delete needs (`item.key`). The `item.value || item`
  unwrapping of a record that itself has a `value` field is not modelled.
- Server: JSON values are text or integers. Booleans, `null` and nested
  objects are not modelled, and request bodies are records.
- Server.VerifyUser: a session whose `userId` is not text counts as no
  session. The routes never store such a session (`Valid()`).
- Server: exceptions from the store (the 500 replies), the diagnostic and
  health endpoints, and the init endpoint's reply. Its effect is
  `InitializeData`.
- Server.KvBackend.Logout: the 401 reply carries no error text (`Failed(401, "")`).
- Session tokens and new ids are parameters. A token that collides with a
  stored one replaces that session.
- Server.KvBackend.GuestLogin: one `now` stands for the two clock reads of
  the guest login (the guest's `createdAt` and the session's), which the
  source takes separately and which may differ.
- Server.KvBackend.InitializeData: one `now` stands for the two
  administrators' separate `createdAt` clock reads.
- Server.Initialized: its contract does not list the seeded records. The two
  administrators, five products and five batches are written out in the
  function and in `InitializeData`.
