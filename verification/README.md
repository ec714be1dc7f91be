# JuanmyGarage in Dafny

JuanmyGarage is a management dashboard for a car-repair shop. It covers customers,
appointments, the parts inventory, repair orders, invoices, reports and a home dashboard.
This project models its logic as pure Dafny functions over immutable data:

- **the data-access layer** (`lib/db-service.ts`): how rows read from the store get the
  customer's name, phone and email flattened onto them; how invoice line items are decoded;
  which fields each write strips before it reaches the store.
- **the forms**: the initial field values when creating or editing; the numeric inputs; the
  line-item editors of the invoice and repair-order forms; the payload each form submits,
  including the invoice's subtotal, 21% tax and total.
- **the list screens**: case-insensitive search, the status filters, local deletion, the
  inventory stock buttons clamped at zero, the category grouping and the stock bar.
- **the page state machines**: loading with or without sample-data fallback; opening,
  closing and editing the form; routing a save to create or update; deletion.
- **the reports**: revenue, completed orders, distinct customers, average ticket, keyword
  classification of services, percentage shares, the top-5 rankings, monthly revenue
  buckets and stock badges.
- **the dashboard**: today's figures, upcoming appointments, alerts, and the header's
  notification bell and menus.
- **the calendar** (days in month, leading blanks, month navigation) and **the sidebar**
  (active link, user initials, open/closed).

Records at the storage boundary are `map<string, Value>`, where `Value` is a JavaScript value.
A key that JavaScript leaves `undefined` is absent from the map; `null` is `Null`. The
JavaScript operators the code relies on are written out explicitly: `||` with truthiness,
`?.`, `Number()` (with `NaN`), `===` and `Math.round` (`floor(x + 1/2)`). The screens that
work on typed values use the datatypes of `lib/types.ts` and the list components' interfaces.

Money is an exact `real`. Parsing of numbers, decoding of JSON, locale month names, the clock
("today", "tomorrow", timestamps) and fresh ids (`Date.now()`) are parameters. Every gateway
call is represented only by its outcome, success or failure, passed in as an argument.

Choices the code makes that are easy to read otherwise:

- the distinct-customer count counts distinct `customer_name` values of repair orders;
- invoice writes keep `subtotal`, `tax` and `total`;
- the inventory list's low-stock view uses `<=`, while the dashboard, the header and the
  inventory page count `<` (both are modelled, and `Entities.LowStockNotionsDiffer` relates them);
- the service keywords are Spanish (`aceite`, `freno`, `neumático`, `revisión`, `diagnóstico`).

Two behaviours of the code that are easy to miss, stated as lemmas:

- The repair-order form edits `customer_name`, but every repair-order write strips it, and the
  form has no `customer_id`. A new order is therefore stored without any link to a customer
  (`RepairOrderForm.StoredNewOrder`).
- Going back from December of year 99 in the calendar jumps to November 1999, because
  `new Date(y, m)` reads years 0 to 99 as 1900 to 1999 (`Calendar.TwoDigitYearJump`). Reaching
  that month takes about 23,000 clicks back from the opening month, so this is noted, not
  claimed as a defect.

## Model

| member | source | states |
|---|---|---|
| DbService.ListRows | lib/db-service.ts:9-20 | A read fails exactly when the store reports an error, carrying its message; otherwise it yields the rows, or the empty list when there is no data. |
| DbService.FlattenCustomer | lib/db-service.ts:71-77 | The joined customer's id, name, phone and email are copied onto the row. The name falls back to "Cliente desconocido" (so it is always truthy), the email to "", and the phone to the given default. Every other field of the row is kept and nothing else is added. |
| DbService.FlattenInvoice | lib/db-service.ts:207-214 | Items stored as a string are decoded, and an undecodable string makes the row fail. Items that are not a string are kept, or replaced by [] when falsy. customer_id is the joined customer's id (absent when it has none), customer_name its name or "Cliente desconocido", customer_email its e-mail or ""; customer_phone and every other field are kept, and the keys are exactly those of the shared customer flattening plus items. |
| DbService.GetJoined | lib/db-service.ts:59-79 | A joined read fails exactly when the store reports an error; otherwise it yields one flattened row per stored row, in order. |
| DbService.FlattenInvoices | lib/db-service.ts:207-216 | The invoice list decodes exactly when every row's items decode; then row i is the flattened row i; otherwise the read fails with a decoding error. |
| DbService.GetInvoices | lib/db-service.ts:195-216 | A store error is reported as such; otherwise the result is the flattening of the rows (none when there is no data). |
| DbService.CustomerInsertRow | lib/db-service.ts:24-29 | The stored customer is the submitted one without id, appointments_count, total_spent and created_at, with every other value unchanged. |
| DbService.CustomerUpdateRow | lib/db-service.ts:44-47 | An update sends everything except the two derived counters. |
| DbService.AppointmentInsertRow | lib/db-service.ts:82-86 | A new appointment is stored without id and without the denormalised customer name, phone and email. |
| DbService.AppointmentUpdateRow | lib/db-service.ts:95-98 | An appointment update strips the denormalised customer fields only. |
| DbService.InventoryInsertRow | lib/db-service.ts:117-121 | A new item is stored without its id. |
| DbService.InventoryUpdateRow | lib/db-service.ts:130-132 | An item update sends the item unchanged. |
| DbService.RepairOrderInsertRow | lib/db-service.ts:167-171 | A new order is stored without id, customer name, phone and email, and line items. |
| DbService.RepairOrderUpdateRow | lib/db-service.ts:180-183 | An order update strips the customer fields and the line items. |
| DbService.InvoiceInsertRow | lib/db-service.ts:219-230 | A new invoice is stored without id, customer name and email, and items; its totals are kept. |
| DbService.InvoiceUpdateRow | lib/db-service.ts:239-242 | An invoice update strips customer name and email, and items. |
| DbService.WritesNeverCarryDerivedFields | lib/db-service.ts:24-242 | Customer writes never send the counters; appointment and repair-order writes never send the denormalised customer fields; invoice writes drop customer_name and customer_email but keep customer_phone; repair-order and invoice writes never send line items. |
| DbService.InsertIsUpdateWithoutIdentity | lib/db-service.ts:24-242 | For every entity, what an insert stores is what an update sends minus the record's identity (id, and created_at for customers). |
| DbService.AppointmentReadWriteRoundTrip | lib/db-service.ts:71-77 | Flattening a stored appointment and writing it back gives the stored row again. For a repair order it gives the row without its items. |
| DbService.WriteOutcome | lib/db-service.ts:29-37 | A write fails exactly when the store reports an error, and then carries that error; otherwise it returns the stored row. |
| LineItems.Reduce | components/invoices/invoice-form.tsx:78 | The loop's running sum is the total of quantity × unit price over all lines. |
| LineItems.ItemsTotalNonNegative | components/invoices/invoice-form.tsx:95 | With no negative quantity or price, the total is not negative. |
| LineItems.RemoveById | components/invoices/invoice-form.tsx:72-74 | Removing an id keeps exactly the other lines, in order, each as often as before; lines with that id are gone. |
| LineItems.RemoveAbsentId | components/invoices/invoice-form.tsx:72-74 | Removing an id no line has changes nothing. |
| LineItems.AddThenRemove | components/invoices/invoice-form.tsx:58-74 | Adding a line with a fresh id and removing that id restores the list. |
| LineItems.DecodeEncode | lib/db-service.ts:213 | A line written as a JSON object decodes back to the same line. |
| LineItems.DecodeAll | lib/db-service.ts:213 | An item array decodes exactly when every element decodes, element by element. |
| LineItems.DecodeAllEncodeAll | lib/db-service.ts:213 | Every item list survives encoding to a JSON array and decoding. |
| Entities.LowStockNotionsDiffer | components/inventory/inventory-list.tsx:45 | Strictly under the minimum implies at or under it; the two differ exactly at quantity == minimum. |
| Entities.OrderTotal | components/repair-orders/repair-orders-list.tsx:92 | An order's total is its item total, 0 when it has no items. |
| FormFields.Carry | components/customers/customer-form.tsx:20-26 | A field starts with the edited record's value when that is truthy, else the default; a new form uses the default. |
| FormFields.InitFields | components/invoices/invoice-form.tsx:26-33 | The initial fields have exactly the defaults' keys, each carried from the edited record or defaulted. |
| FormFields.NewFormShowsDefaults | components/repair-orders/repair-order-form.tsx:20-31 | A new form shows exactly the defaults. |
| FormFields.ReopenIsStable | components/inventory/inventory-form.tsx:33-42 | Reopening the form on what it showed gives the same fields. |
| FormFields.NumericInput | components/inventory/inventory-form.tsx:132-160 | An empty numeric input gives its default; any other text gives its parse, or NaN. |
| CustomerForm.Payload | components/customers/customer-form.tsx:29-41 | The submitted customer is the typed fields plus id, created_at and the two counters. Each of those keeps the edited record's truthy value; a falsy or missing one becomes the fresh id, today's date or 0. |
| CustomerForm.StoredNewCustomer | components/customers/customer-form.tsx:29-41 | What a new customer's insert stores is exactly the seven typed fields. |
| CustomerForm.StoredEditedCustomer | components/customers/customer-form.tsx:29-41 | An update sends the typed fields plus id and created_at. |
| AppointmentForm.NewAppointmentDefaults | components/appointments/appointment-form.tsx:24-31 | A new appointment starts pending, with a 60-minute duration. |
| AppointmentForm.DurationInput | components/appointments/appointment-form.tsx:160-163 | An empty duration resets to 60; other text is its integer parse, and NaN when that parse fails. |
| AppointmentForm.Payload | components/appointments/appointment-form.tsx:49-57 | The submitted appointment is the fields with customer_id converted by Number(), and the edited id or a fresh one. |
| Values.NumberOf | components/appointments/appointment-form.tsx:53-53 | JavaScript's Number(): a number is kept, an empty string or empty array gives 0, null gives 0, a non-empty string gives its parse or NaN when it does not parse, a missing value or an array of two or more elements gives NaN, and a one-number array gives that number. |
| AppointmentForm.StoredNewAppointment | components/appointments/appointment-form.tsx:49-57 | A new appointment's insert stores the typed fields with the numeric customer_id. |
| AppointmentForm.SelectedCustomer | components/appointments/appointment-form.tsx:59 | The shown customer is the first one whose id equals the converted customer_id, or none when no customer matches. |
| AppointmentForm.UnparsableIdSelectsNobody | components/appointments/appointment-form.tsx:59 | A customer_id that converts to NaN selects nobody. |
| InventoryForm.CategoriesDistinct | components/inventory/inventory-form.tsx:19-30 | There are exactly ten categories, all different. |
| InventoryForm.NewItemDefaults | components/inventory/inventory-form.tsx:33-42 | A new item starts with quantity 0, minimum 5 and price 0. |
| InventoryForm.SetNumber | components/inventory/inventory-form.tsx:132-160 | Editing a number field sets only that field: emptied it gets its default, otherwise the parsed text. |
| InventoryForm.ClearingRestoresDefaults | components/inventory/inventory-form.tsx:132-160 | Clearing the three number fields brings back 0, 5 and 0. |
| InventoryForm.Payload | components/inventory/inventory-form.tsx:44-53 | The submitted item is the fields plus id and last_restocked. Each keeps the edited item's truthy value, else a fresh id or today's date. |
| InvoiceForm.ComputeTotals | components/invoices/invoice-form.tsx:76-80 | Subtotal is the item total, tax 21% of it, total 121%; no items gives all zeros. |
| InvoiceForm.TotalsOrdered | components/invoices/invoice-form.tsx:95-97 | With non-negative lines, 0 <= tax <= total and subtotal <= total. |
| InvoiceForm.NewEditor | components/invoices/invoice-form.tsx:35-36 | The editor starts with the edited invoice's items, or none, and an empty draft. |
| InvoiceForm.AddItem | components/invoices/invoice-form.tsx:54-70 | A draft with a description and a positive numeric quantity and price is appended under the fresh id and the draft is cleared; any other draft changes nothing. |
| InvoiceForm.AddItemRaisesSubtotal | components/invoices/invoice-form.tsx:54-70 | Accepting a line strictly raises the subtotal. |
| InvoiceForm.RemoveItem | components/invoices/invoice-form.tsx:72-74 | Removing keeps exactly the other lines, in order and with their multiplicity, and the draft. |
| InvoiceForm.AddThenRemoveItem | components/invoices/invoice-form.tsx:54-74 | Adding and then removing the fresh id restores the lines. |
| InvoiceForm.Payload | components/invoices/invoice-form.tsx:76-93 | The submitted invoice is the fields with a numeric customer_id, the carried or fresh id, the items (which decode back to the same lines) and the three totals. |
| InvoiceForm.StoredNewInvoice | components/invoices/invoice-form.tsx:76-93 | A new invoice's insert stores the typed fields, the numeric customer_id, the subtotal, the 21% tax and the total, and no items. |
| RepairOrderForm.NewOrderDefaults | components/repair-orders/repair-order-form.tsx:20-31 | A new order starts pending with both costs 0. |
| RepairOrderForm.NewEditor | components/repair-orders/repair-order-form.tsx:33-34 | The editor starts with the edited order's items, or none, and the draft ("", 1, 0). |
| RepairOrderForm.AddItem | components/repair-orders/repair-order-form.tsx:36-41 | A draft with a description and positive quantity and price is appended and reset; otherwise nothing changes. |
| RepairOrderForm.ResetDraftRejected | components/repair-orders/repair-order-form.tsx:34-39 | The reset draft, with price 0, is never accepted. |
| RepairOrderForm.RemoveItem | components/repair-orders/repair-order-form.tsx:43-45 | Removing keeps exactly the other lines, in order and with their multiplicity. |
| RepairOrderForm.AddItemRaisesTotal | components/repair-orders/repair-order-form.tsx:36-57 | Accepting a line raises the shown total by its amount, strictly. |
| RepairOrderForm.AddThenRemoveItem | components/repair-orders/repair-order-form.tsx:36-45 | Adding and removing the fresh id restores the lines. |
| RepairOrderForm.Payload | components/repair-orders/repair-order-form.tsx:47-55 | The submitted order is the fields plus the carried or fresh id and the items. |
| RepairOrderForm.StoredNewOrder | components/repair-orders/repair-order-form.tsx:47-55 | A new order's insert stores the typed fields minus customer_name: the typed customer is lost. |
| Reports.Round | app/reports/page.tsx:75 | Math.round gives the integer within half of x, halves rounded up. |
| Reports.TotalRevenueIsPaidSum | app/reports/page.tsx:30 | Summing the totals of the paid invoices equals summing every invoice's contribution, which is its total when paid and 0 otherwise. |
| Reports.ComputeStatistics | app/reports/page.tsx:28-47 | Revenue is the paid total; completed orders are counted; unique customers is the number of distinct names; average ticket is revenue per completed order. |
| Reports.AverageTicket | app/reports/page.tsx:40 | The ticket is 0 without completed orders; otherwise ticket × count == revenue. |
| Reports.UniqueNamesCount | app/reports/page.tsx:37 | Keeping each name once in order counts the same as the set of names. |
| Reports.Classify | app/reports/page.tsx:54-64 | The keyword tests in fixed order: oil if "aceite"; brakes if "freno" and no oil; tyres if "neumático" and neither; diagnosis if "revisión" or "diagnóstico" and none of those; else other. |
| Reports.ClassifyIgnoresCase | app/reports/page.tsx:54-62 | Lower-casing a description first does not change its class. |
| Reports.AllItems | app/reports/page.tsx:52-53 | The items counted are exactly those of orders that have items. |
| Reports.AllItemsAppend | app/reports/page.tsx:52-53 | Gathering the items of two order lists one after the other gives the two gatherings concatenated. |
| Reports.AllItemsOfOne | app/reports/page.tsx:52-53 | One order contributes all its items, in order and with repeats, or nothing when it has none. |
| Reports.ServiceCountIsFamilyCount | app/reports/page.tsx:54-67 | A family's count is the number of items classified into it. |
| Reports.ServiceData | app/reports/page.tsx:50-78 | Each slice's value is the rounded percentage of all gathered items that fall in its family; no items gives no slices. |
| Reports.ServiceTotalIsItemCount | app/reports/page.tsx:70 | The divisor, the sum of the counts, is the number of items. |
| Reports.Percent | app/reports/page.tsx:75 | The percentage is within a half of count/total·100, with halves rounded up; a count between 1 and the total gives 0 to 100. |
| Reports.Shares | app/reports/page.tsx:66-77 | One slice per distinct service in order of first appearance, with its rounded percentage of all items and the colour at its index modulo 5; every value is in 0..100. |
| Reports.SharesBounded | app/reports/page.tsx:66-70 | Each service's count is between 1 and the number of items. |
| Reports.TopCustomers | app/reports/page.tsx:80-89 | At most five customers, each listed no more often than it occurs in the input, by non-increasing spend; nobody left out spent more than anyone listed. |
| Reports.InventoryMovement | app/reports/page.tsx:91-100 | At most five rows, each an input item listed no more often than it occurs, by non-increasing stock; nothing left out has more stock than a listed row. |
| Reports.RevenueData | app/reports/page.tsx:102-126 | One bucket per month with any invoice, in first-appearance order, capitalised; income is the month's paid total; expenses are 70% of it, rounded. |
| Reports.Expenses | app/reports/page.tsx:120 | Expenses are within a half of 70% of the income; for non-negative income they are between 0 and 70% of it plus a half; zero income gives zero. |
| Reports.RevenueBucketsAddUp | app/reports/page.tsx:102-126 | The months' incomes add up to the headline revenue. |
| Reports.UnpaidMonthIsZero | app/reports/page.tsx:109-120 | A month with only unpaid invoices still has a bucket, with 0 income and 0 expenses. |
| Reports.StockBadge | app/reports/page.tsx:358-365 | "Bajo" iff stock < 5, "Medio" iff 5 <= stock < 10, "Óptimo" otherwise. |
| Reports.StockBadgeMonotone | app/reports/page.tsx:358-365 | More stock never gives a worse badge. |
| DashboardGrid.TodayAppointments | components/dashboard-grid.tsx:13 | Exactly the appointments whose date starts with today's date, in order, each as often as in the input. |
| DashboardGrid.ActiveOrders | components/dashboard-grid.tsx:14 | Exactly the orders in progress or pending, in order, each as often as in the input. |
| DashboardGrid.LowStockItems | components/dashboard-grid.tsx:15 | Exactly the items strictly under their minimum, in order, each as often as in the input. |
| DashboardGrid.TodayRevenue | components/dashboard-grid.tsx:18-20 | Today's revenue is what each invoice contributes: its total when paid and issued today. |
| DashboardGrid.TodayRevenueIsContributions | components/dashboard-grid.tsx:18-20 | The filter-then-sum of the source equals that sum of contributions. |
| DashboardGrid.TodayRevenueAtMostTotal | components/dashboard-grid.tsx:18-20 | With non-negative totals, today's revenue never exceeds all paid revenue. |
| DashboardGrid.Upcoming | components/dashboard-grid.tsx:27-30 | At most three appointments of today or tomorrow, each listed no more often than it occurs, earliest first; none left out is earlier than a listed one. |
| DashboardGrid.StatusText | components/dashboard-grid.tsx:52-62 | Three statuses get Spanish labels; any other is shown as is. |
| DashboardGrid.StatusTextIdempotent | components/dashboard-grid.tsx:52-62 | Translating a label again changes nothing. |
| DashboardGrid.ComputeAlerts | components/dashboard-grid.tsx:189-203 | The panel shows iff an item is under its minimum or an appointment is pending; it lists the first three such items and the first two pending appointments. |
| DashboardHeader.NotificationCount | components/dashboard-header.tsx:56-58 | The count is low-stock items plus pending appointments; it is 0 iff there is neither. |
| DashboardHeader.Listed | components/dashboard-header.tsx:120-140 | The first five of each kind are listed, in order. |
| DashboardHeader.BellFor | components/dashboard-header.tsx:99-116 | The red dot shows iff the count is positive, the empty message iff it is 0, and the singular word iff it is 1. |
| DashboardHeader.ToggleNotifications | components/dashboard-header.tsx:71-74 | The panel flips and the user menu closes. |
| DashboardHeader.ToggleUserMenu | components/dashboard-header.tsx:76-79 | The user menu flips and the panel closes. |
| DashboardHeader.ClickAt | components/dashboard-header.tsx:33-41 | A click outside a popup closes it; a click inside leaves it. |
| DashboardHeader.FollowNotification | components/dashboard-header.tsx:124-146 | Following a notification closes the panel. |
| DashboardHeader.NeverBothOpen | components/dashboard-header.tsx:33-79 | From a state with at most one popup open, no sequence of events opens both. |
| ListView.EmptyQueryMatches | components/inventory/inventory-list.tsx:37-42 | An empty search matches every field. |
| ListView.IgnoringCaseIsExactOnLowered | components/invoices/invoices-list.tsx:53-58 | Case-insensitive matching is exact matching of the lower-cased texts. |
| ListView.Sync | components/invoices/invoices-list.tsx:45-51 | A list passed in replaces the copy unless the policy is Never; with no list passed in, or under Never, the copy is kept. |
| InventoryList.Visible | components/inventory/inventory-list.tsx:37-46 | An item is shown iff its name, sku or category contains the query ignoring case (and, in the low-stock view, it is at or under its minimum); order and repeats are kept. |
| InventoryList.EmptySearchShowsAll | components/inventory/inventory-list.tsx:37-42 | An empty search in the plain view shows the whole inventory. |
| InventoryList.Delete | components/inventory/inventory-list.tsx:48-50 | Deleting keeps exactly the other items, in order and with their multiplicity. |
| InventoryList.UpdateQuantity | components/inventory/inventory-list.tsx:52-56 | The list keeps its length; items with the id get max(0, quantity + change); all others are unchanged. |
| InventoryList.PlusThenMinus | components/inventory/inventory-list.tsx:52-56 | Pressing + then − restores a non-negative inventory. |
| InventoryList.MinusThenPlus | components/inventory/inventory-list.tsx:52-56 | − then + restores an item with stock; at 0 it ends at 1. |
| InventoryList.Categories | components/inventory/inventory-list.tsx:59 | Each category of a shown item once, no repeats, in order of first appearance among the shown items. |
| InventoryList.CategoryGroups | components/inventory/inventory-list.tsx:59-64 | One group per category, holding that category's shown items. |
| InventoryList.ExactlyOneGroup | components/inventory/inventory-list.tsx:59-64 | Every shown item is in the group of its own category, as often as it is shown, and in no other; no category repeats. |
| InventoryList.StockBarWidth | components/inventory/inventory-list.tsx:119-167 | With a non-zero minimum the width is quantity/minimum·100 capped at 100 (under 100 below a positive minimum, full at or over it); with a zero minimum the bar is full for positive stock and absent otherwise. |
| RepairOrdersList.Visible | components/repair-orders/repair-orders-list.tsx:56-65 | An order is shown iff customer, vehicle or number contains the query ignoring case and the status filter allows it; order and repeats are kept. |
| RepairOrdersList.EmptySearchShowsAll | components/repair-orders/repair-orders-list.tsx:56-65 | An empty search with "all" shows every order. |
| RepairOrdersList.Delete | components/repair-orders/repair-orders-list.tsx:67-69 | Deleting keeps exactly the other orders, in order and with their multiplicity. |
| RepairOrdersList.DeleteAbsent | components/repair-orders/repair-orders-list.tsx:67-69 | Deleting an unlisted id changes nothing. |
| RepairOrdersList.CardTotalNonNegative | components/repair-orders/repair-orders-list.tsx:92 | A card's total is not negative when its lines are not. |
| InvoicesList.Visible | components/invoices/invoices-list.tsx:53-62 | An invoice is shown iff customer, number or email contains the query ignoring case and the status filter allows it; order and repeats are kept. |
| InvoicesList.StatusFilterNarrows | components/invoices/invoices-list.tsx:60-62 | A status filter shows exactly the invoices of "all" that have that status. |
| InvoicesList.Delete | components/invoices/invoices-list.tsx:64-66 | Deleting keeps exactly the other invoices, in order and with their multiplicity. |
| InvoicesList.NewListReplaces | components/invoices/invoices-list.tsx:49-51 | A new list replaces the local one, local deletions included. |
| AppointmentsList.StatusLabel | components/appointments/appointments-list.tsx:47-52 | Exactly the four known statuses have a badge. |
| AppointmentsList.SampleIsWellFormed | components/appointments/appointments-list.tsx:17-45 | The three sample appointments have known statuses and distinct ids. |
| AppointmentsList.Visible | components/appointments/appointments-list.tsx:73-78 | An appointment is shown iff name or description contains the query ignoring case, or the phone contains it as typed; no status filter; order and repeats are kept. |
| AppointmentsList.CaseOnlyMattersForPhone | components/appointments/appointments-list.tsx:73-78 | For name and description the query's case does not matter. |
| AppointmentsList.PhoneMatchKeepsCase | components/appointments/appointments-list.tsx:73-78 | For the phone it does: a phone "ABC" is found by "ABC" and not by "abc". |
| AppointmentsList.Delete | components/appointments/appointments-list.tsx:80-86 | With an onDelete handler the id is handed to it; without one exactly the other appointments are kept, in order and with their multiplicity. |
| AppointmentsList.LocalListPolicy | components/appointments/appointments-list.tsx:65-71 | The list starts as the given one, else the sample, and is replaced only when a list is given. |
| CustomersList.Visible | components/customers/customers-list.tsx:34-39 | A customer is shown iff name or email contains the query ignoring case, or the phone contains it as typed; order and repeats are kept. |
| CustomersList.Delete | components/customers/customers-list.tsx:41-43 | Deleting keeps exactly the other customers, in order and with their multiplicity. |
| CustomersList.NeverResynchronised | components/customers/customers-list.tsx:31 | The local list ignores lists passed later. |
| CustomersList.AvatarInitials | components/customers/customers-list.tsx:63-68 | The initials are the upper-cased first letters of the first two non-empty space-separated words. |
| CustomersList.OneWordName | components/customers/customers-list.tsx:63-68 | A one-word name gives its first letter, upper-cased. |
| CustomersList.ShownSpent | components/customers/customers-list.tsx:96 | A missing total is shown as 0, the amount the top-customer ranking also uses. |
| CrudPage.Initial | app/appointments/page.tsx:16-20 | A page starts empty, loading, with the form closed. |
| CrudPage.Load | app/appointments/page.tsx:27-44 | Loading ends; success stores the data; failure stores the sample with a plain notice, or keeps the list with an error notice; the form is untouched. |
| CrudPage.CreateNew | app/appointments/page.tsx:46-49 | The form opens with nothing selected. |
| CrudPage.Edit | app/appointments/page.tsx:51-54 | The form opens on the chosen record. |
| CrudPage.Close | app/appointments/page.tsx:56-59 | The form closes and the selection is cleared. |
| CrudPage.SaveCall | app/appointments/page.tsx:61-77 | A save updates the payload's own id iff a record is selected, else creates. |
| CrudPage.AfterSave | app/appointments/page.tsx:78-87 | A successful save gives a plain notice, reloads, and closes the form; a failed one gives an error notice and changes nothing else. |
| CrudPage.AfterDelete | app/appointments/page.tsx:90-106 | A successful delete gives a notice and reloads; a failed one gives an error notice and does not reload. |
| CrudPage.SelectionStaysInsideForm | app/appointments/page.tsx:46-106 | No sequence of events leaves a record selected with the form closed. |
| CrudPage.FailedSaveKeepsRouting | app/appointments/page.tsx:61-87 | Retrying after a failed save makes the same kind of call. |
| CrudPage.NewAfterEditCreates | app/appointments/page.tsx:46-77 | New after Edit creates rather than updates. |
| Pages.FallbackFor | app/inventory/page.tsx:26-41 | Only the inventory page keeps its previous list on failure; the others show their sample. |
| Pages.FailedLoadNotice | app/customers/page.tsx:34-42 | A failed load raises one notice, which is an error only on the inventory page. |
| Pages.LowStockCount | app/inventory/page.tsx:87-123 | The count is the number of positions whose item is strictly under its minimum; it is positive, and the banner shows, iff some item is. |
| Pages.AlertCountAtMostLowStockView | app/inventory/page.tsx:87 | The page's strict count never exceeds what the list's low-stock view (<=) shows. |
| Calendar.MonthLength | components/appointments/appointment-calendar.tsx:10-12 | 28 to 31 days; 29 exactly for February of a leap year; 30 for April, June, September, November. |
| Calendar.YearLength | components/appointments/appointment-calendar.tsx:10-16 | A year has 365 days, 366 when leap, counted by months or by the year formula. |
| Calendar.MonthsAreContiguous | components/appointments/appointment-calendar.tsx:10-12 | The next month's first day is this month's first plus its length. |
| Calendar.ConstructorYear | components/appointments/appointment-calendar.tsx:35-39 | A year 0 to 99 passed to new Date means 1900 to 1999. |
| Calendar.MakeMonth | components/appointments/appointment-calendar.tsx:35-39 | Month overflow carries into the year, after the two-digit rule. |
| Calendar.DaysInMonth | components/appointments/appointment-calendar.tsx:10-12 | 28 to 31 days, 29 exactly in a leap February. |
| Calendar.DaysInMonthIsDayZeroOfNext | components/appointments/appointment-calendar.tsx:10-12 | The length is the distance to the next month's first, which is what day 0 of the next month gives. |
| Calendar.FirstDay | components/appointments/appointment-calendar.tsx:14-16 | The first weekday is between 0 and 6. |
| Calendar.NextMonthStartsWhereThisEnds | components/appointments/appointment-calendar.tsx:14-40 | The next month starts on the weekday after this one's last day. |
| Calendar.StartMonth | components/appointments/appointment-calendar.tsx:8 | October 2025 starts on a Wednesday and has 31 days. |
| Calendar.BuildGrid | components/appointments/appointment-calendar.tsx:20-30 | firstDay blanks, then 1..days in order; a cell holds a day (is clickable) iff it is past the blanks. |
| Calendar.MonthGrid | components/appointments/appointment-calendar.tsx:18-30 | A month's grid has firstDay + days cells, 28 to 37 of them. |
| Calendar.Next | components/appointments/appointment-calendar.tsx:38-40 | Next moves one month forward (from year 100 on). |
| Calendar.Prev | components/appointments/appointment-calendar.tsx:34-36 | Prev moves one month back (from year 100 on). |
| Calendar.NextPrevRoundTrip | components/appointments/appointment-calendar.tsx:34-40 | Next then prev, and prev then next, return to the month. |
| Calendar.TwoDigitYearJump | components/appointments/appointment-calendar.tsx:34-36 | Prev from December 99 lands in November 1999. |
| Sidebar.ActiveEntries | components/sidebar.tsx:69-73 | An entry is highlighted iff the path is its href; at most one is. |
| Sidebar.EachPageHighlightsItsEntry | components/sidebar.tsx:9-18 | On each entry's own page, exactly that entry is highlighted. |
| Sidebar.UserInitials | components/sidebar.tsx:24-42 | One or two characters: the upper-cased first letters of the dot-separated local part, else "U". |
| Sidebar.EmptyLocalPartIsAnonymous | components/sidebar.tsx:35-42 | An email with nothing before "@" shows "U". |
| Sidebar.FirstAndLastName | components/sidebar.tsx:35-41 | first.last@domain shows the two initials. |
| Sidebar.Toggle | components/sidebar.tsx:52 | The button flips the sidebar. |
| Sidebar.OverlayClick | components/sidebar.tsx:104 | The overlay closes an open sidebar. |
| Sidebar.ToggleTwice | components/sidebar.tsx:52-104 | Two presses restore it; the overlay acts like one press. |
| Text.Initials | components/customers/customers-list.tsx:63-68 | At most two characters: the upper-cased first letters of the non-empty words. |
| Text.Capitalize | app/reports/page.tsx:124 | The first character is upper-cased; the rest is kept. |
| Grouping.GroupSum | app/reports/page.tsx:50-66 | The groups are the distinct keys in first-appearance order, each with the sum of its values; the grand total is kept. |

## Left out

- Network, authentication and the Supabase client (`lib/supabase/client.ts`, the sidebar's user lookup and the header's logout): each gateway call appears only as its outcome.
- JSX rendering, styling, colour tables of statuses, `components/stat-card.tsx`, `components/ui/*`, `app/page.tsx` and `app/settings/page.tsx`: presentation only.
- `components/invoices/invoice-detail.tsx`, `components/repair-orders/repair-order-detail.tsx` and `components/customers/customer-detail.tsx`: display only; their totals repeat the form sums.
- IEEE-754 arithmetic and `toFixed`: money is an exact real, so rounding of cents is not modelled.
- Locale formatting of dates and times, the month key of a date, "today", "tomorrow" and date-to-timestamp: parameters.
- The random "vendido" column of the stock ranking: random.
- `Date.now()` ids: passed in as fresh ids.
- `JSON.parse`: an opaque decoder parameter; only what it returns is modelled.
- Unicode case mapping: lower/upper case covers ASCII and Á É Í Ó Ú Ü Ñ only.
- The mock-data module `lib/mock-data` is not part of this model: the sample lists are parameters (the appointment list's own three-item sample is modelled).
- Number parsing (`Number.parseFloat`, `Number.parseInt`, `Number()` of a string): a parameter returning a number or nothing (NaN).
- The in-place sort in the stock ranking mutates the shared sample inventory; the model returns a new sequence.
- Toasts' wording, spinners and asynchronous timing: notices are modelled by kind and severity only.
- Seqs.SortBy: sortedness and permutation are proved, stability is not.
- TopCustomers: when totals tie at the fifth place, which of the tied customers is listed is not stated (the stable sort keeps the earliest); the ranking and sub-multiset are.
- InventoryMovement: when quantities tie at the fifth place, which of the tied items is listed is not stated (the stable sort keeps the earliest).
- Upcoming: when appointment times tie at the third place, which of the tied appointments is listed is not stated (the stable sort keeps the earliest).
- StockBarWidth: a negative percentage (negative stock or minimum) is returned as computed, although a browser ignores a negative width.
- DashboardGrid.Upcoming: an unparseable date (`NaN` time) is not modelled; times are reals.
- RepairOrderForm.AddItem: the draft's typed-input handlers (`parseInt`/`parseFloat` of the quantity and price boxes) are not modelled; the draft holds already-parsed numbers.
- Reports.ServiceData and Reports.RevenueData: JavaScript orders integer-like object keys first; month and service names are never integer-like, so plain insertion order is modelled.
