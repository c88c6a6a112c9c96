# Sri Kailash Electronics shop store, modelled in Dafny

This is a model of the data layer behind the shop's management app (recharge and electronics). The app is a Streamlit front end over SQLite. The model covers five tables: clients, recharge orders, product orders, products and recharge plans. It also covers the rules the form handlers apply to them. The app comes in two versions:
- `streamlit_app.py` uses the catalogue tabs in `tabs/`;
- `app.py` is the older single-page app.

Their handlers are modelled side by side. Where the two versions differ, the older one's method carries a `Legacy` prefix.

Modules:
- `Wrappers`: `Option`.
- `Money`: the commission `max(0, 0.05·amount − discount)`, and the discount rounded to paise.
- `Timestamps`: the `"%Y-%m-%d %H:%M:%S"` stamp and its `"%Y-%m"` month prefix.
- `Text`: the substring test behind the client search. Also the image-path rules: name with spaces turned to `_` and lowercased, the MIME subtype as extension, and `product_images/<name>_<file>`.
- `Table`: a table is a sequence of `Row(id, rec)`. Its queries are `Find`, `Overwrite` (`UPDATE … WHERE id=?`), `Filter` (`WHERE`), `Count` and `Without` (`DELETE … WHERE id=?`). `Keyed(t, last)` is the AUTOINCREMENT invariant: ids increase and none exceeds the table's counter.
- `Schema`: the column records of the five tables.
- `Clients`: the add and edit forms, the UNIQUE phone, the lucky draw, and the search with per-client order counts.
- `Catalogue`: the required-field checks, keep-or-replace image paths, and the per-operator plan tabs.
- `Dashboard`: two commission totals (computed in the newer app, stored in the older one), the clients due today, and the pending due recharges.
- `Shop`: the class `Database`, holding the five tables and their counters, with one method per form handler. Each method keeps `Valid()` (all tables exist, every table is keyed, phones are unique). Each states its whole new `State()`: unchanged on every refusal, otherwise the old state with exactly one table (and its counter) replaced by an append, a one-position update, or a `Table` function (`Overwrite`, `Without`) of the old one.

Inputs the app takes from outside become parameters:
- the clock: a `DateTime`;
- the drawn discount fraction: `r`, with a precondition that it lies between the bounds;
- the lucky-draw sample: a position `pick`;
- uploads: their MIME type, or the list of their file names.

## Model

| member | source | states |
|---|---|---|
| Money.Commission | streamlit_app.py:565-567 | the commission is never negative, is at least 5% of the amount less the discount, and is either 0 or exactly that difference |
| Money.CommissionExamples | streamlit_app.py:565-567 | (500, 5) earns 20 and (100, 10) is clipped to 0 |
| Money.CommissionAtMostRate | streamlit_app.py:565-567 | with a non-negative discount the commission never exceeds 5% of the amount |
| Money.RoundToPaise | streamlit_app.py:345 | `round(x, 2)`: the result is within half a paisa of x, a whole number of paise, and non-negative for non-negative x |
| Money.OrderDiscount | streamlit_app.py:341-345 | a zero amount gets no discount; otherwise the discount is amount·r to the nearest paisa, whole paise, non-negative |
| Money.EditDiscountAgrees | streamlit_app.py:380 | the edit form's discount, which has no zero-amount branch, equals the entry form's on every amount |
| Money.EditDiscount | streamlit_app.py:380 | the edit form's discount is amount·r to the nearest paisa, a whole number of paise |
| Money.DiscountWithinRange | streamlit_app.py:345 | a fraction drawn from [lo, hi] gives a discount between amount·lo and amount·hi, give or take half a paisa |
| Money.FixedBoundsCommissionUnclipped | app.py:423 | with r in [0.0025, 0.0175] and an amount of at least 1, the clip at zero never applies and the commission is positive |
| Timestamps.Stamp | streamlit_app.py:348 | `created_at` is always 19 characters |
| Timestamps.MonthKey | streamlit_app.py:139 | `this_month` is always 7 characters |
| Timestamps.InMonthOfStamp | streamlit_app.py:150 | the month filter matches a written stamp for exactly one month, the stamp's own `%Y-%m` (both directions) |
| Timestamps.StampStartsWithMonth | streamlit_app.py:150 | the first 7 characters of a stamp are its `%Y-%m` month |
| Timestamps.StampInMonthIff | streamlit_app.py:137-152 | a stamp lies in today's month exactly when year and month agree (both directions) |
| Text.ContainsIff | streamlit_app.py:182 | `LIKE '%term%'` holds exactly when the term occurs at some position of the value |
| Text.ContainsEmpty | streamlit_app.py:182 | the empty term occurs in every value, as the unfiltered query lists everyone |
| Text.Contains | streamlit_app.py:182 | a match needs a term no longer than the value, and a term that starts the value always matches |
| Text.Slug | app.py:341 | the stem keeps the name's length, has no spaces and no upper-case ASCII letters |
| Text.SlugAt | app.py:341 | each character maps on its own: space to `_`, A–Z to a–z, others kept |
| Text.SlugIdempotent | app.py:341 | turning a stem into a stem changes nothing |
| Text.FirstSlash | app.py:341 | the position found is the first '/' of the type; None exactly when there is none |
| Text.UpToSlash | app.py:341 | `split('/')[0]` is the longest prefix without a '/': the whole text when it has no '/', otherwise the text up to its first '/' |
| Text.MimeSubtype | app.py:341 | `type.split('/')[1]` exists exactly when the type has a '/', and has no '/' itself |
| Text.MimeSubtypeOfPair | app.py:503 | the subtype of "top/sub" is "sub" |
| Text.ImagePath | app.py:341 | an upload gets a path exactly when its type has a '/', and the path starts with "<dir>/<stem>." |
| Text.ImagePathOfUpload | app.py:341 | an upload typed "top/sub" is stored at "<dir>/<stem>.sub"; a type without '/' gives no path |
| Text.ProductImagePaths | tabs/products_tab.py:21-28 | the loop yields one path per upload, in upload order, each `product_images/<name>_<file>` |
| Table.Find | tabs/products_tab.py:51 | a row is found exactly when the id is present, and the record found is that row's |
| Table.FindAt | db.py:9 | in a keyed table the id of the k-th row finds the k-th row's record |
| Table.Overwrite | streamlit_app.py:294-297 | `UPDATE … WHERE id=?` replaces the record of every row with that id and leaves every other row and the length unchanged |
| Table.FindAfterOverwrite | tabs/recharge_catalogue_tab.py:61-64 | after an update, a lookup of that id gives the new record if the id was present, and every other lookup is unchanged |
| Table.OverwriteAbsent | streamlit_app.py:387-388 | an UPDATE whose id matches no row changes nothing |
| Table.OverwriteAt | streamlit_app.py:512 | updating the id of the k-th row of a keyed table replaces just position k |
| Table.OverwriteKeyed | db.py:9 | an UPDATE keeps the AUTOINCREMENT invariant |
| Table.InsertKeyed | db.py:9 | the next id is fresh and larger than every id issued, and the table stays keyed |
| Table.Filter | streamlit_app.py:143 | a `WHERE` keeps exactly the rows satisfying it (both directions), never lengthens the table, and keeps ids in order |
| Table.Count | streamlit_app.py:179 | `COUNT(*)` is at most the table's size and is zero exactly when no row qualifies |
| Table.CountIsFilterLength | streamlit_app.py:179 | `COUNT(*)` equals the number of rows the `WHERE` selects |
| Table.CountAppend | streamlit_app.py:179 | a new row adds one to a count exactly when it qualifies |
| Table.Without | streamlit_app.py:309 | `DELETE … WHERE id=?` keeps exactly the rows with other ids, and none with that id remains |
| Table.WithoutPresent | streamlit_app.py:309 | deleting a present id removes exactly one row |
| Table.WithoutAbsent | streamlit_app.py:399 | deleting an absent id changes nothing |
| Table.WithoutKeyed | db.py:9 | a delete keeps the AUTOINCREMENT invariant |
| Clients.AddFormRejectedIff | streamlit_app.py:244 | the add form is refused exactly when name or phone is empty, or "Others" is chosen with no custom group |
| Clients.EffectiveGroup | streamlit_app.py:226-230 | the stored group is the custom text when "Others" is chosen and the choice itself otherwise, so a listed choice other than "Others" is never empty |
| Clients.AddFormComplete | streamlit_app.py:244 | a form that passes the check inserts a row whose name, phone and group are all non-empty |
| Clients.NewClient | streamlit_app.py:248-250 | the inserted row carries the entered name, phone, effective group, operator, plan amount, recharge day, notes, wins, premium and referral flag; the referrer fields are blank unless "Referred?" is Yes |
| Clients.EditedClient | streamlit_app.py:294-297 | the edit writes what the add form would, except that the referrer fields are stored as entered even when "Referred?" is No |
| Clients.Win | streamlit_app.py:512 | a win adds 1 to lucky_draw_wins and changes no other column |
| Clients.AppendKeepsPhonesUnique | db.py:11 | appending a client whose phone is not yet taken keeps phones unique |
| Clients.OverwriteKeepsPhonesUnique | db.py:11 | an update that takes no other row's phone keeps phones unique |
| Clients.WithoutKeepsPhonesUnique | db.py:11 | a delete keeps phones unique |
| Clients.DrawKeepsTable | streamlit_app.py:512 | a win changes no id and no phone, so the table stays keyed with unique phones |
| Clients.DrawAddsOneWin | streamlit_app.py:512 | a draw adds exactly one win to the table's total |
| Clients.SearchClients | streamlit_app.py:176-183 | the results are exactly the clients whose name or phone contains the term, each once and in table order, each with its own recharge and product order counts |
| Clients.EmptySearchListsAll | streamlit_app.py:184-189 | with no term every client is listed |
| Clients.RechargeOrderCountZeroIff | streamlit_app.py:179 | a client's recharge-order count is zero exactly when no order carries its id |
| Clients.RechargeOrderCountAfterInsert | streamlit_app.py:179 | a new order adds one to its own client's count and to no other |
| Catalogue.NewImagePath | app.py:386-391 | with no upload the stored image path is kept; with one, the upload's path is stored |
| Catalogue.KeptOrReplacedImages | tabs/products_tab.py:64-72 | with no uploads the image list is kept; with uploads it is replaced entirely by their paths, in order |
| Catalogue.PlansOf | tabs/recharge_catalogue_tab.py:33-36 | an operator's tab lists exactly the plans with that operator, each once and in table order; its length is their count |
| Catalogue.OperatorTabs | tabs/recharge_catalogue_tab.py:28-36 | the loop yields four tabs, the k-th listing exactly the k-th operator's plans; every plan of a listed operator appears in some tab |
| Catalogue.UnlistedOperatorHidden | tabs/recharge_catalogue_tab.py:31-36 | a plan whose operator is not one of the four appears in no tab |
| Dashboard.TotalCommission | streamlit_app.py:97-105 | the total is non-negative and 0 when no order is Recharged |
| Dashboard.TotalCommissionOverRecharged | streamlit_app.py:97-104 | the total is the sum of clipped commissions over the Recharged orders only |
| Dashboard.TotalCommissionAppend | streamlit_app.py:97-104 | a new order adds its own clipped commission if Recharged, and nothing if not |
| Dashboard.StoredCommissionTotal | app.py:143-144 | the older dashboard's total is 0 when no order is Recharged |
| Dashboard.StoredTotalMatchesComputed | streamlit_app.py:570-586 | when every stored commission is current, both dashboards show the same total |
| Dashboard.StoredTotalOfFormOrders | app.py:430-431 | with the commission column as the order forms leave it, the older dashboard's total is always 0 |
| Dashboard.StoredTotalMissesCommission | app.py:143-144 | one Recharged order of 500 with discount 5 entered by the form shows 0 where 20 is earned |
| Dashboard.DueToday | streamlit_app.py:107-110 | the due list is exactly the clients whose recharge day is today, each once and in table order; its length is the `COUNT` the dashboard shows |
| Dashboard.RechargedIn | streamlit_app.py:148-152 | a client counts as recharged this month only through a Recharged order carrying its id, with a 7-character month |
| Dashboard.PendingDue | streamlit_app.py:138-154 | pending due clients are exactly the clients due today with no Recharged order in this month, each once and in table order, and are a sub-list of those due today |
| Dashboard.RechargeClearsDueIff | streamlit_app.py:146-154 | a Recharged order for a pending client clears it exactly when the order's stamp falls in this month |
| Shop.Database.constructor | db.py:3-68 | a fresh database has all five tables, empty, with every counter at 0, and is valid |
| Shop.Database.CreateTables | db.py:8-65 | the CREATE TABLE IF NOT EXISTS statements add the missing tables and change no row |
| Shop.Database.GetConnection | db.py:3-68 | connecting to an existing valid database leaves it unchanged |
| Shop.Database.AddClient | streamlit_app.py:242-255 | refused with no change when a required field is empty or the phone is taken; otherwise exactly one row with the submitted fields is appended under the next id |
| Shop.Database.UpdateClient | streamlit_app.py:290-303 | all twelve columns of row `id` are overwritten and no other row changes; a phone held by another row is refused with no change |
| Shop.Database.DeleteClient | streamlit_app.py:305-316 | without the confirm box nothing changes; with it, exactly the row with that id is removed |
| Shop.Database.LuckyDraw | streamlit_app.py:507-515 | on an empty table nothing changes; otherwise exactly the picked client's wins rise by 1 and the table's total by 1 |
| Shop.Database.AddRechargeOrder | streamlit_app.py:340-355 | one order is appended under the next id with the rounded discount, the stamp of `now` and commission 0.0 |
| Shop.Database.UpdateRechargeOrder | app.py:456-464 | only client_id, amount, discount and status of row `id` change; created_at and the stored commission stay |
| Shop.Database.DeleteRechargeOrder | streamlit_app.py:395-406 | without the confirm box nothing changes; with it, exactly the row with that id is removed |
| Shop.Database.RecordRechargeOrder | streamlit_app.py:570-577 | one order is appended carrying its computed commission, so stored commissions stay current |
| Shop.Database.ReviseRechargeOrder | streamlit_app.py:580-586 | amount, discount, status and the recomputed commission of row `id` change, nothing else; stored commissions stay current |
| Shop.Database.AddProductOrder | streamlit_app.py:416-427 | one product order is appended under the next id; its amount stays NULL |
| Shop.Database.UpdateProductOrder | streamlit_app.py:448-460 | only product_id, client_id, quantity and status of row `id` change |
| Shop.Database.DeleteProductOrder | streamlit_app.py:464-475 | without the confirm box nothing changes; with it, exactly the row with that id is removed |
| Shop.Database.LegacyAddProduct | app.py:496-512 | refused with no change when name or category is empty or price is 0; otherwise one product with its image path and stock 0 is appended |
| Shop.Database.LegacyUpdateProduct | app.py:541-553 | six columns of row `id` are written, keeping the stored image path when nothing is uploaded; stock and the image list stay |
| Shop.Database.LegacyDeleteProduct | app.py:557-568 | without the confirm box nothing changes; with it, exactly the row with that id is removed |
| Shop.Database.LegacyAddPlan | app.py:334-352 | refused with no change when name or operator is empty or price is 0; otherwise one plan with its image path is appended |
| Shop.Database.LegacyUpdatePlan | app.py:385-397 | all ten columns of row `id` are written, keeping the stored image path when nothing is uploaded |
| Shop.Database.LegacyDeletePlan | app.py:401-412 | without the confirm box nothing changes; with it, exactly the row with that id is removed |
| Shop.Database.AddProduct | tabs/products_tab.py:15-34 | one product is appended with no validation, its price at least 0 as the widget admits, its image list naming every upload in order |
| Shop.Database.UpdateProduct | tabs/products_tab.py:49-78 | refused for an unlisted id; otherwise seven columns of that row are written (price at least 0), the image list kept or replaced, and no other row changes |
| Shop.Database.DeleteProduct | tabs/products_tab.py:80-83 | exactly the listed row is removed with no confirmation; an unlisted id is refused |
| Shop.Database.AddPlan | tabs/recharge_catalogue_tab.py:9-25 | one plan is appended under the next id; its operator is one of the four, its validity at least 1 and its price at least 0 |
| Shop.Database.UpdatePlan | tabs/recharge_catalogue_tab.py:44-66 | refused for an unlisted id or a stored operator outside the four; otherwise eight columns of that row are written, subcategory and image path kept |
| Shop.Database.DeletePlan | tabs/recharge_catalogue_tab.py:44-70 | the same guards as the edit form; then exactly the row with that id is removed, with no confirmation |

## Left out

- Rendering, widgets, tabs, expanders and the `st.session_state` fetch-then-edit cycle. An edit or delete acts on the id that was fetched, and the model takes the row as it is now. A row deleted between fetch and submit is therefore read as absent, which is the UPDATE's own no-op.
- The shared-password login and reading `config.json`. The configured discount bounds are the parameters `lo` and `hi`.
- Writing image files, `os.makedirs`, the logo and background encoding. Only the path strings are modelled.
- `random.uniform` and `DataFrame.sample`: their results are parameters with preconditions.
- Floating point. Money is exact `real`.
- Money.RoundToPaise: ties round up, where Python's `round` rounds half to even on binary floats. So on an exact tie the model may be one paisa above the source.
- Text.Contains: case-sensitive over all characters, where SQLite's `LIKE` ignores ASCII case. `%` and `_` inside the term are taken literally, and the f-string injection in the search query is not modelled. An empty term goes to the unfiltered query in the source. In the model it matches everyone, which gives the same list.
- Text.SlugChar: lowercases A–Z only, where Python's `lower()` covers all of Unicode.
- SQLite's `strftime('%Y-%m', created_at)` parsing is reduced to the 7-character prefix. Every stored stamp has the `%Y-%m-%d %H:%M:%S` form, so the two agree.
- `ORDER BY`, and the pandas display columns (the per-row commission shown in the order lists, the dashboard's client and order counts). These are display only.
- The JSON encoding of `image_paths`. The model stores the list itself.
- The ads and alerts handlers (they only append a timestamped row, and nothing is sent), the about page, and the `ads` and `alerts` tables. Only the older app creates those two (app.py:44-57); db.py does not, so on a database it sets up, the newer app's ads and alerts inserts (streamlit_app.py:486, streamlit_app.py:499) would find no such table. This is read from the text, not executed.
- The migration block at the end of `streamlit_app.py`. It copies `recharge_plans` into a new table on every run and drops `subcategory` and `image_path`. Dropping the table also drops its AUTOINCREMENT counter, which falls back to the largest surviving id, so the id of a deleted highest plan can be issued again. The model's plan counter (`Keyed`, `InsertKeyed`) describes the table without that block. This is read from the text, not executed. The model keeps one schema with the union of both apps' columns (see below).
- The two schemas disagree. The older app's `products` has `image_path` and `stock DEFAULT 0`; `db.py` has the `image_paths` list and no default. The older app's plans have `subcategory` and `image_path`, and its `product_orders` has no `amount`. The model carries every column. A column a handler never writes holds "", [] or None, standing for NULL.
- The client column defaults of `db.py` (premium, lucky_draw_wins and referred default to 0). Every client INSERT supplies all three, so the defaults never take effect.
- Unparseable uploads and missing select-box entries crash the page before any write. The model keeps two such crashes. One is an upload type without '/', where `split('/')[1]` raises in the legacy add and edit forms (`BadImageType`). The other is a stored plan operator outside the four, seen by the catalogue tab (`UnlistedOperator`). These others are left out: a stored order status outside the three choices, and a legacy product subcategory outside the list.
- The legacy client edit and delete path. In `app.py` the id box has the widget key `edit_client` (app.py:255), and the fetch button then assigns `st.session_state.edit_client` (app.py:261). Streamlit refuses to assign to a widget's key, so by reading alone that path cannot run; `streamlit_app.py` uses the key `edit_client_id` for the box. `UpdateClient` and `DeleteClient` model the newer app's path, which the older one evidently meant to match. This is read from the text, not executed.
- Shop.Database.AddProductOrder and UpdateProductOrder: quantity is any `nat`, where the widget admits at least 1.

## Findings

| source | as written | input that shows it | evidently intended | confidence | as-written member | corrected member |
|---|---|---|---|---|---|---|
| app.py:143-144 | The older dashboard sums the stored `commission` column over Recharged orders. But its add-order form stores 0.0 (app.py:430-431), and its edit form never writes the column (app.py:463-464). | One Recharged order, amount 500, discount 5, entered through the form: the dashboard shows 0.00. | The dashboard shows the commission earned, 5% of the amount less the discount, clipped at 0. That is 20 here. The unused helpers `add_recharge_order` / `update_recharge_order` store exactly this value. | high (not executed) | Dashboard.StoredTotalMissesCommission | Dashboard.StoredTotalMatchesComputed |
