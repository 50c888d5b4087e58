# Cybercafe local store, in Dafny

This project models the persisted client-side store of a cybercafe web app and the code that reads and writes it. There is no server. Every feature reads one of the `cybercafe_*` collections, transforms it and writes it back. The collections are users, PCs, sessions, reservations, reports, orders and demand predictions.

The model has three layers:

- **The store.** `Store.LocalStore` is a class with one `seq` field per collection, the `cybercafe_initialized` sentinel, and the cached `cybercafe_user` key.
  - Each operation of `src/utils/mockData.ts` is a method whose postcondition gives the new store as a pure function of the old one. `Snapshot()` is the store's content as a value.
  - Those pure functions are `Seeded`, `WithPCStatus`, `WithoutSession`, `WithBan`, `WithRole`, `WithReportResolved`, `SessionsView` and `ListUsers`, in modules `Store` and `Tables`. The lemmas about them are the properties: frames, idempotence, uniqueness kept, and the exact seeded fixture.
- **The account registry.** `Auth.AuthProvider` is the registry of `src/contexts/AuthContext.tsx`. It holds the current user and the loading flag over the same store. `Authenticate` and `Registered` state what login and registration do to the accounts.
- **The pages.** Each page is a class holding its component state and the store. Its handlers are methods. Filters, counts, statistics and cart arithmetic are pure functions with lemmas.

Time and randomness are parameters:

- A `Clock` gives the current time in epoch milliseconds and an opaque ISO-8601 rendering.
- The random variance of the demand table is a function from the draw's position to an integer.
- Ids made from `Date.now()` are passed in as fresh strings.
- Prices are integer cents, and `Math.round` of a quotient is `Arith.RoundDiv`.

## Model

| member | source | states |
|---|---|---|
| Store.Seeded | src/utils/mockData.ts:62-180 | Sentinel set: the store is returned unchanged. Otherwise every collection gets its fixture (three users, twenty PCs, two sessions, one reservation, one report, no orders, the demand table) and the sentinel is set. The cached user is never touched. |
| Store.SeededIdempotent | src/utils/mockData.ts:62-63 | Seeding a second time, with any clock and any random draws, changes nothing. |
| Store.SeededConsistent | src/utils/mockData.ts:66-104 | The fixture keeps emails unique, and PC ids and numbers unique. |
| Store.LocalStore.Initialize | src/utils/mockData.ts:62-180 | The new store is `Seeded` of the old one. Emails and PC ids and numbers stay unique. |
| Store.LocalStore.GetPCs | src/utils/mockData.ts:183-186 | Seeds if needed, then returns exactly the stored PCs. |
| Store.LocalStore.UpdatePCStatus | src/utils/mockData.ts:188-192 | Reads through `getPCs`, so it seeds first. Then only the PC list changes, to `WithPCStatus` of it. |
| Store.LocalStore.GetActiveSessions | src/utils/mockData.ts:194-207 | Seeds if needed, then returns `SessionsView` of the stored sessions and users at the clock's time. |
| Store.LocalStore.EndSession | src/utils/mockData.ts:209-213 | Without seeding, only the session list changes, to `WithoutSession` of it. |
| Store.LocalStore.GetMockUsers | src/utils/mockData.ts:215-226 | Seeds if needed, then returns `ListUsers` of the stored accounts. |
| Store.LocalStore.BanUser | src/utils/mockData.ts:228-232 | Without seeding, only the accounts change, to `WithBan` of them. Emails stay unique. |
| Store.LocalStore.EditUserRole | src/utils/mockData.ts:234-238 | Without seeding, only the accounts change, to `WithRole` of them. |
| Store.LocalStore.GenerateDemandPredictions | src/utils/mockData.ts:240-243 | Seeds if needed and returns the stored table. On a fresh store that table is `DemandTable(noise)`. |
| Store.LocalStore.GetReports | src/utils/mockData.ts:245-248 | Seeds if needed, then returns the stored reports. |
| Store.LocalStore.ResolveReport | src/utils/mockData.ts:250-254 | Seeds, then only the reports change, to `WithReportResolved` of them. |
| Tables.WithPCStatus | src/utils/mockData.ts:190 | Length and order are kept. A record gets the new status exactly when its id matches, and every other field is as before. An unknown id changes nothing. |
| Tables.WithPCStatusKeepsUnique | src/utils/mockData.ts:188-192 | A status edit keeps PC ids and numbers unique. |
| Tables.WithPCStatusLastWins | src/utils/mockData.ts:188-192 | Two status edits of the same id equal the second edit alone. |
| Tables.WithoutSession | src/utils/mockData.ts:211 | Exactly the sessions whose id differs remain. An unknown id changes nothing. |
| Tables.WithoutSessionAppend | src/utils/mockData.ts:211 | The remaining sessions keep their stored order, however many records carry the id: ending on a concatenation is the concatenation of the results. |
| Tables.WithoutSessionRemovesOne | src/utils/mockData.ts:209-213 | When one session has the id, the result is the list with that record cut out and the others in order. |
| Tables.WithBan | src/utils/mockData.ts:230 | Length is kept. `isBanned` becomes true exactly on records with the id, and no other field changes. An unknown id changes nothing. |
| Tables.WithBanIdempotent | src/utils/mockData.ts:228-232 | Banning twice equals banning once. |
| Tables.WithRole | src/utils/mockData.ts:236 | Length is kept. Only records with the id get the role, and no other field changes. An unknown id changes nothing. |
| Tables.AccountEditsKeepEmailsUnique | src/utils/mockData.ts:228-238 | Ban and role edits keep emails unique. |
| Tables.WithReportResolved | src/utils/mockData.ts:252 | Length is kept. Only reports with the id become `resuelto`, and no other field changes. An unknown id changes nothing. |
| Tables.WithReportResolvedIdempotent | src/utils/mockData.ts:250-254 | Resolving twice equals resolving once. |
| Tables.ElapsedMinutes | src/utils/mockData.ts:204 | The result is the whole number of minutes m with m·60000 ≤ now − start < (m+1)·60000. |
| Tables.DisplayName | src/utils/mockData.ts:200-203 | The name is never empty. It is 'Desconocido' when no account has the id. Otherwise the first account with the id decides, even when later accounts share the id: its name, or 'Desconocido' when that name is empty. |
| Tables.DisplayNameFirstMatch | src/utils/mockData.ts:200-203 | For the first account with an id, the session shows its name, or 'Desconocido' when the name is empty, whatever later accounts with the same id say. |
| Tables.SessionsView | src/utils/mockData.ts:199-206 | One entry per session, in order. Only the name and the minutes are recomputed, as above. |
| Tables.ListUsers | src/utils/mockData.ts:218-225 | One entry per account, in order. Id, name, email, role and ban flag are kept and there is no password. The date is exactly `DatePart` of `createdAt`, the whole part before its first 'T'. |
| Text.DatePart | src/utils/mockData.ts:223 | The result is a prefix of the input with no 'T'. When it is shorter than the input, a 'T' follows it. |
| Seed.SeedUsers | src/utils/mockData.ts:66-94 | Three accounts with unique emails, the demo password and no ban. The first is an admin and the other two are customers. |
| Seed.SeedPCs | src/utils/mockData.ts:98-104 | Twenty PCs, entry i having number i+1. |
| Seed.SeedZone | src/utils/mockData.ts:102 | The zone is in 1..4, and PC i is in zone z exactly when 5(z−1) ≤ i < 5z. |
| Seed.SeedPCsWellFormed | src/utils/mockData.ts:98-104 | Entry i has id `pc-(i+1)` and location `Zona` followed by its zone. Ids and numbers are distinct. |
| Seed.SeedStatusCounts | src/utils/mockData.ts:101 | The fixture has exactly 3 occupied PCs, 1 under maintenance and 16 free. |
| Seed.MaintenanceOnlyAt11 | src/utils/mockData.ts:101 | Among the twenty, only index 11 is under maintenance. |
| Seed.SeedSessions | src/utils/mockData.ts:108-127 | Two sessions with distinct ids. The stored minutes agree with their start times. |
| Seed.BaseUsage | src/utils/mockData.ts:167-170 | The value is one of 40, 60, 70 or 90. It is at least 70 exactly for hours 14..22, and it includes the +20 exactly on Sábado and Domingo. |
| Seed.Clamp | src/utils/mockData.ts:172 | The result is in [0,100]; it is the input when the input lies in range, else the nearest bound. |
| Seed.DayBlock | src/utils/mockData.ts:166-175 | Sixteen entries for one day, with hours 8 to 23 in order. |
| Seed.DemandTableShape | src/utils/mockData.ts:162-176 | 112 entries. Entry k is day k/16 at hour 8 + k%16, with usage clamped from base plus the k-th draw. Every usage is in [0,100] whatever the draws. |
| Seed.DemandWithinVariance | src/utils/mockData.ts:171-172 | With draws in −7..7 the clamp never cuts, and every usage is in 33..97. |
| Seed.DemandTableOfDay | src/utils/mockData.ts:165-176 | Filtering the table by any one day gives its 16 hours, 8 to 23, in order. |
| Seed.GenerateDemand | src/utils/mockData.ts:162-176 | The nested loop's pushes build exactly `DemandTable(noise)`. |
| Auth.Authenticate | src/contexts/AuthContext.tsx:53-63 | The result is present exactly when some account has equal email and password. It is then the projection of the first such account. |
| Auth.PublicOfIdentifies | src/contexts/AuthContext.tsx:58-63 | The cached user (id, email, name, role) of two different accounts differs when emails are unique, so the cache names one account. |
| Auth.AuthenticateIgnoresBan | src/contexts/AuthContext.tsx:53-56 | Banning any account never changes a login result. |
| Auth.RoleFor | src/contexts/AuthContext.tsx:77 | The role is admin exactly when the invite code is 'CYBER2025'. |
| Auth.NewAccount | src/contexts/AuthContext.tsx:77-86 | The new account is never banned, keeps the given email and password, and is an admin exactly when the invite code is 'CYBER2025'. |
| Auth.Registered | src/contexts/AuthContext.tsx:74-89 | Refused exactly when some account has an equal email. Otherwise exactly the new account is appended and the others are kept. |
| Auth.RegisteredKeepsEmailsUnique | src/contexts/AuthContext.tsx:74-89 | A successful registration keeps emails unique. |
| Auth.LoginAfterRegister | src/contexts/AuthContext.tsx:53-99 | Right after registering, the same email and password log in as the new account's projection. |
| Auth.RegisterAnaAfterSeed | src/contexts/AuthContext.tsx:74-89 | On the fixture, a new email gives four accounts. The new one is an unbanned customer. |
| Auth.OverrideLaws | src/contexts/AuthContext.tsx:110 | For the field-by-field override: two updates equal their merge, an empty update is the identity, and repeating an update changes nothing. |
| Auth.AuthProvider.constructor | src/contexts/AuthContext.tsx:31-32 | No user, and loading. |
| Auth.AuthProvider.Mount | src/contexts/AuthContext.tsx:34-47 | Seeds the store. A parseable cached user is restored and an unparseable one is removed. Loading ends. |
| Auth.AuthProvider.Login | src/contexts/AuthContext.tsx:49-68 | Success exactly when `Authenticate` finds an account. The user and the cached key then become its projection and loading ends. On failure the message is 'Credenciales incorrectas' and nothing changes, with loading left true. |
| Auth.AuthProvider.Register | src/contexts/AuthContext.tsx:70-101 | Success exactly when `Registered` accepts. The accounts then become its result, and the user and the cached key become the new account's projection. On failure the message is 'Email ya registrado', nothing is written, and loading stays true. |
| Auth.AuthProvider.Logout | src/contexts/AuthContext.tsx:103-106 | The user is cleared and the cached key removed. Nothing else changes. |
| Auth.AuthProvider.UpdateUser | src/contexts/AuthContext.tsx:108-113 | Without a user, nothing changes. Otherwise the user and the cached key become the override of the old user by the updates. |
| RegisterPage.CheckPasswords | src/pages/Register.tsx:25-41 | A mismatch is reported exactly when the passwords differ, checked first. 'Too short' is reported exactly when they match and have fewer than 6 characters. Otherwise the checks pass, and 6 characters are enough. |
| RegisterPage.PageRegistrationsAreCustomers | src/pages/Register.tsx:45 | With 'cliente' in the invite-code position, the new account is always a customer. |
| RegisterPage.HandleSubmit | src/pages/Register.tsx:22-58 | A failed check returns its error and calls nothing. Otherwise `register` runs and navigation happens exactly when it succeeds. On success the accounts gain the new customer, the user and the cached key become its projection, loading ends and no other collection changes. On a refusal the message is shown, nothing is written, the user is unchanged and loading stays true. |
| Cafeteria.AddToCart | src/pages/client/ClientCafeteria.tsx:31 | The quantity of `id` becomes its old value + 1, an absent entry counting as 0. Other entries are unchanged. |
| Cafeteria.RemoveFromCart | src/pages/client/ClientCafeteria.tsx:32-39 | Above 1 the quantity is decremented. Otherwise the key is deleted. An absent key changes nothing. Other entries are unchanged. |
| Cafeteria.CartOpsKeepValid | src/pages/client/ClientCafeteria.tsx:31-39 | Both operations keep every quantity at least 1. |
| Cafeteria.RemoveUndoesAdd | src/pages/client/ClientCafeteria.tsx:31-39 | Adding then removing the same id restores the cart. |
| Cafeteria.PriceIn | src/pages/client/ClientCafeteria.tsx:42-43 | The price of the first product with the id, or 0 when there is none. |
| Cafeteria.Total | src/pages/client/ClientCafeteria.tsx:41-44 | Computed over the product table, the total equals the fold over the cart's entries of price × quantity, taken in any order. Unknown ids contribute 0. |
| Cafeteria.EntrySumRemove | src/pages/client/ClientCafeteria.tsx:41-44 | The fold over entries may take any entry first. |
| Cafeteria.TotalAfterCartOps | src/pages/client/ClientCafeteria.tsx:31-44 | Adding raises the total by the item's price. Removing a present id lowers it by that price. Removing an absent id leaves it. |
| Cafeteria.CafeteriaPage.HandleOrder | src/pages/client/ClientCafeteria.tsx:46-56 | An empty cart is refused and nothing changes. Otherwise exactly one order (cart, total, date) is appended and the cart is emptied. |
| Cafeteria.CafeteriaPage.AddItem | src/pages/client/ClientCafeteria.tsx:31 | The cart becomes `AddToCart` of it. |
| Cafeteria.CafeteriaPage.RemoveItem | src/pages/client/ClientCafeteria.tsx:32-39 | The cart becomes `RemoveFromCart` of it. |
| ClientAccount.UserReservations | src/pages/client/ClientAccount.tsx:31-34 | Exactly the reservations whose `userId` equals the current user's id. |
| ClientAccount.UserReservationsAppend | src/pages/client/ClientAccount.tsx:31-34 | The listing keeps stored order. A new booking for the user goes last, and one for someone else does not show. |
| ClientAccount.Cancelled | src/pages/client/ClientAccount.tsx:41-43 | Length and order are kept. Every record with the id becomes `cancelada`, with no owner or status check, and no other field changes. |
| ClientAccount.CancelledIdempotent | src/pages/client/ClientAccount.tsx:40-46 | Cancelling twice equals cancelling once. |
| ClientAccount.CancelledNotOffered | src/pages/client/ClientAccount.tsx:102 | After a cancel, the cancel button is not offered again for that id. |
| ClientAccount.PCNumber | src/pages/client/ClientAccount.tsx:48-51 | The first PC with the id decides, even when later PCs share the id: its number, or 'Desconocido' when that number is 0. 'Desconocido' when no PC has the id. |
| ClientAccount.PCNumberOfSeed | src/pages/client/ClientAccount.tsx:48-51 | On the fixture, id `pc-k` shows number k. |
| ClientAccount.AccountPage.HandleCancelReservation | src/pages/client/ClientAccount.tsx:40-46 | Only the reservations change, to `Cancelled` of them. Then the list is reloaded. |
| ClientAccount.AccountPage.LoadReservations | src/pages/client/ClientAccount.tsx:31-34 | The list becomes the user's reservations. |
| ClientReserve.FreePCs | src/pages/client/ClientReserve.tsx:27-30 | Exactly the stored PCs whose status is `libre`. |
| ClientReserve.FreePCsAppend | src/pages/client/ClientReserve.tsx:28 | The free PCs keep the stored order: the list of a concatenation is the concatenation of the lists. |
| ClientReserve.FreePCsOfSeed | src/pages/client/ClientReserve.tsx:27-30 | On the fixture, 16 PCs are selectable. |
| ClientReserve.StartTime | src/pages/client/ClientReserve.tsx:44 | The start time is the date, then 'T', then the time, then ':00', and nothing else. |
| ClientReserve.DateOfStartTime | src/pages/client/ClientReserve.tsx:44 | Cutting `date`T`time`:00 at its first 'T' gives the date back. |
| ClientReserve.Hours | src/pages/client/ClientReserve.tsx:45 | `parseInt` of the decimal text of n is n. |
| ClientReserve.DisplayedTotal | src/pages/client/ClientReserve.tsx:98 | The shown total is 5 for each hour the text names, and always a multiple of 5. |
| ClientReserve.ChoiceRoundTrip | src/pages/client/ClientReserve.tsx:93-98 | For each offered duration, `parseInt` of its text gives it back, and the shown total is 5 per hour. |
| Text.ParseNatToString | src/pages/client/ClientReserve.tsx:45 | Parsing the decimal text of n gives n. |
| ClientReserve.ReservePage.LoadAvailable | src/pages/client/ClientReserve.tsx:27-30 | Seeds through `getPCs`, then lists the free PCs. |
| ClientReserve.ReservePage.ChooseDuration | src/pages/client/ClientReserve.tsx:90-94 | The duration becomes the text of the chosen number of hours, which is one of the offered choices. Nothing else changes. |
| ClientReserve.ReservePage.FillForm | src/pages/client/ClientReserve.tsx:64-87 | The PC, date and time become the inputs. The list and the duration are unchanged. |
| ClientReserve.ReservePage.HandleSubmit | src/pages/client/ClientReserve.tsx:32-52 | A missing PC, date or time writes nothing. Otherwise exactly one active reservation is appended, with the user's id, the start time and the parsed hours. The PCs are untouched. |
| ClientReport.NewReport | src/pages/client/ClientReport.tsx:28-35 | The new report is pending and carries the user's id and name and the three inputs. |
| ClientReport.FiledThenResolved | src/pages/client/ClientReport.tsx:27-36 | A filed report, once resolved by its id, is `resuelto`. Earlier reports with other ids are untouched. |
| ClientReport.ReportPage.FillForm | src/pages/client/ClientReport.tsx:55-63 | Subject, PC number and description become the three inputs. |
| ClientReport.ReportPage.HandleSubmit | src/pages/client/ClientReport.tsx:20-40 | An empty subject or description writes nothing and keeps the inputs. An empty PC number does not block. Otherwise exactly one report is appended and all three inputs are cleared. |
| AdminPCs.StatusPartition | src/pages/admin/AdminPCManagement.tsx:23-28 | The three status counts add up to the number of PCs. |
| AdminPCs.CountStatuses | src/pages/admin/AdminPCManagement.tsx:23-28 | Each field is the count of its status, and the counts sum to the total. |
| AdminPCs.CountsOfSeed | src/pages/admin/AdminPCManagement.tsx:23-28 | On the fixture the counts are 16, 3 and 1. |
| AdminPCs.EditMovesOne | src/pages/admin/AdminPCManagement.tsx:30-32 | Editing one PC's status moves it from its old count to its new one. |
| AdminPCs.Toggled | src/pages/admin/AdminPCManagement.tsx:107 | The editor closes exactly when it was open on this PC. Otherwise it opens on this PC. |
| AdminPCs.ToggleTwice | src/pages/admin/AdminPCManagement.tsx:107 | Two presses leave the editor open on the PC exactly when it started there. |
| AdminPCs.PCManagementPage.HandleEditStatus | src/pages/admin/AdminPCManagement.tsx:30-35 | The same replacement is applied to the store and to the page's list, and the editor closes. A page that mirrored the store still does. |
| AdminPCs.PCManagementPage.ToggleEdit | src/pages/admin/AdminPCManagement.tsx:107 | The editor becomes `Toggled` of the old one. |
| AdminPCs.PCManagementPage.Load | src/pages/admin/AdminPCManagement.tsx:19-21 | Seeds through `getPCs`, and the page's list becomes exactly the stored PCs. The editor is unchanged. |
| AdminUsers.FilteredUsers | src/pages/admin/AdminUserManagement.tsx:39-45 | Exactly the users whose lower-cased name or email contains the lower-cased term. An empty term keeps all. |
| AdminUsers.FilteredUsersIgnoresTermCase | src/pages/admin/AdminUserManagement.tsx:41-42 | Lower-casing the term first changes nothing. |
| AdminUsers.FilteredUsersAppend | src/pages/admin/AdminUserManagement.tsx:39-45 | The search keeps the listing's order: the matches of a concatenation are the concatenation of the matches. |
| Text.ToLowerIdempotent | src/pages/admin/AdminUserManagement.tsx:41-42 | Lower-casing twice equals lower-casing once. |
| AdminUsers.ListedWithRole | src/pages/admin/AdminUserManagement.tsx:53 | Length is kept. Entries with the id get the new role, and every other entry is as before. |
| AdminUsers.ListedWithBan | src/pages/admin/AdminUserManagement.tsx:64 | Length is kept. Entries with the id become banned, and every other entry is as before. |
| AdminUsers.EditsCommuteWithListing | src/pages/admin/AdminUserManagement.tsx:52-53 | Listing after a store edit equals the page's own edit of its list, for both role and ban. |
| AdminUsers.BannedNotOffered | src/pages/admin/AdminUserManagement.tsx:174 | After a ban, the ban button is not offered for that user. |
| AdminUsers.UserManagementPage.Load | src/pages/admin/AdminUserManagement.tsx:34-37 | Seeds through `getMockUsers`, and the page's list becomes `ListUsers` of the stored accounts. The editor is unchanged. |
| AdminUsers.UserManagementPage.OpenRoleEditor | src/pages/admin/AdminUserManagement.tsx:166 | The editor opens on the user, and the list is unchanged. |
| AdminUsers.UserManagementPage.HandleEditRole | src/pages/admin/AdminUserManagement.tsx:47-56 | Refused on one's own id, with nothing written. Otherwise only the target's role changes, in the store and on the page, and the editor closes. |
| AdminUsers.UserManagementPage.HandleBanUser | src/pages/admin/AdminUserManagement.tsx:58-66 | Refused on one's own id, with nothing written. Otherwise only the target becomes banned, in the store and on the page. |
| AdminDashboard.FilteredSessions | src/pages/admin/AdminDashboard.tsx:28-31 | Exactly the sessions whose lower-cased user name contains the lower-cased term. An empty term keeps all. |
| AdminDashboard.FilteredSessionsAppend | src/pages/admin/AdminDashboard.tsx:28-31 | The search keeps the listing's order: the matches of a concatenation are the concatenation of the matches. |
| AdminDashboard.FilteredSessionsIdempotent | src/pages/admin/AdminDashboard.tsx:28-31 | Searching within the results finds the same sessions. |
| AdminDashboard.PCNumbers | src/pages/admin/AdminDashboard.tsx:72 | Exactly the PC numbers that occur. There are at most as many as sessions, and at least one when there is a session. |
| AdminDashboard.SessionStats | src/pages/admin/AdminDashboard.tsx:70-75 | Zeros with no sessions. Otherwise the count, the distinct PCs (between 1 and the count) and the mean elapsed time rounded half up. |
| Arith.RoundDiv | src/pages/admin/AdminDashboard.tsx:73 | r is the integer with r − ½ ≤ n/d < r + ½. |
| Arith.RoundDivWithin | src/pages/admin/AdminDashboard.tsx:73 | A quotient between lo and hi rounds to a value between lo and hi. |
| AdminDashboard.ElapsedSumSnoc | src/pages/admin/AdminDashboard.tsx:73 | The modelled sum equals the left-to-right `reduce`: one more session adds its elapsed time. |
| AdminDashboard.ElapsedSumBounds | src/pages/admin/AdminDashboard.tsx:73 | n values each between lo and hi sum to between n·lo and n·hi. |
| AdminDashboard.AverageWithin | src/pages/admin/AdminDashboard.tsx:73 | The average lies between the least and the greatest elapsed time. |
| AdminDashboard.DistinctPCsCountEach | src/pages/admin/AdminDashboard.tsx:72 | Sessions on pairwise different PCs count one PC each. |
| AdminDashboard.DashboardPage.HandleEndSession | src/pages/admin/AdminDashboard.tsx:56-68 | The session is removed from the stored key, then the list is reloaded (which seeds). On a seeded store the reloaded list no longer has it. |
| AdminDashboard.DashboardPage.LoadSessions | src/pages/admin/AdminDashboard.tsx:37-54 | The list becomes `getActiveSessions()` of the store. |
| AdminDemand.DayData | src/pages/admin/AdminDemand.tsx:20 | Exactly the predictions of the selected day. |
| AdminDemand.DayDataAppend | src/pages/admin/AdminDemand.tsx:20 | The day's predictions keep the table's order: the selection of a concatenation is the concatenation of the selections. |
| AdminDemand.DayDataOfTable | src/pages/admin/AdminDemand.tsx:20 | On the generated table, every day shows 16 hours, 8 to 23, in order. |
| AdminDemand.BarColorOf | src/pages/admin/AdminDemand.tsx:31-35 | Below 40, from 40 to 69, and 70 and above are three disjoint, exhaustive bands. 70 is in the top band. |
| AdminDemand.BarColorMonotone | src/pages/admin/AdminDemand.tsx:31-35 | More usage never gets a lower band. |
| AdminDemand.LowDemandHours | src/pages/admin/AdminDemand.tsx:26 | The count of predictions below 40, divided by 7 and rounded. |
| AdminDemand.NoLowHoursWithoutNegativeDraws | src/pages/admin/AdminDemand.tsx:26 | Low demand only comes from negative draws. With draws that are never negative, no prediction is below 40 and the count is 0. |

## Left out

- Rendering, animation, toasts and routing: the JSX, the navigation calls and the sidebar state are presentation.
- JSON and the string-keyed storage API: each key is a field of the store class. The one parse failure that is handled, an unreadable `cybercafe_user` value, is modelled as `StoredUser.Malformed`.
- Date parsing and formatting: session starts are epoch milliseconds, and `toISOString()` is an opaque function of the clock. Cutting at 'T' is modelled. Tables.ListUsers takes the re-render `new Date(createdAt).toISOString()` as the identity on stored creation dates, which are all written by `toISOString()`; an invalid date, on which the source throws a RangeError, is not modelled.
- Seed.DemandTable: the variance is taken as already rounded. `Math.round(clamp(base + v))` equals `clamp(base + round(v))` because the base is an integer. A half-way variance of exactly ±7.5 is not distinguished.
- Floating point: prices are integer cents, and the means are integer round-half-up quotients.
- Empty-input cases of the demand page: `Math.max` over nothing is −Infinity and the mean over nothing is NaN. The weekly peak and the day and week averages are display values and are not modelled.
- Lower-casing: only ASCII and Latin-1 capitals are mapped. JavaScript's full Unicode case mapping is not modelled.
- String lengths: JavaScript counts UTF-16 code units, and the password length check here counts characters.
- `parseInt`: only on the decimal texts the duration selector offers.
- The 300 ms waits in login and registration are timers with no effect on state.
- The dashboard's five-second polling: each tick is one more `AdminDashboard.DashboardPage.LoadSessions` call, which seeds the store if needed and replaces the page's list with freshly computed minutes. The model allows that call any number of times at any clock; only the schedule is left out.
- The `lastLogin` field the user page adds, and the profile form of the account page, are display only.
- `Date.now()` ids are supplied fresh strings; the code does not guarantee uniqueness, and the model does not assume it.
- Concurrent writers, such as a second browser tab, are not modelled.
- ClientAccount.AccountPage.HandleCancelReservation: the reload reads the page's current user, which is fixed for the page's lifetime; a user change re-mounts the page.
- ClientReserve.ReservePage.HandleSubmit, ClientReport.ReportPage.HandleSubmit and the handlers of AdminUsers.UserManagementPage: the user from `useAuth` is likewise a constant of the page, read once at mount. A user change while the page stays mounted is not modelled.
