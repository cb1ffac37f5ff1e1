# Invitation backend — a Dafny model

This project models the backend of an online invitation service. Customers
build invitations from a published template or from a design made from
scratch. They share each invitation under a public slug, collect RSVPs from
guests and export them as CSV. Premium templates and scratch designs are paid
through a payment gateway. Administrators manage categories and templates,
the scratch-design price and user roles.

The whole database is one in-memory store, the class `Backend.Store`
(store.dfy). It holds maps from id to record for invitations, templates,
categories and users. RSVPs and payments are sequences in creation order.
There is an optional settings record and a counter for fresh ids. Each
request handler is a method of the store. It answers `Ok` with what the
response carries, or `Err` with the status the handler sets. Three further
failures stand for errors raised below the handlers:

- `Invalid` is a schema validation error.
- `Duplicate` is a unique-index error.
- `Crash` is a property read on a missing document.

Each handler's decision is a pure `...Reply` function in a module per
controller. The store method applies that decision to its fields. The
invariant `StoreInvariants.StoreOk` (the store's `Valid()`) states what the
schemas, the unique indexes and the handlers keep true:

- Every invitation has valid content and an expiry.
- Its RSVP counter equals the number of its RSVPs.
- Its payment link points at a payment of that same invitation.
- Slugs are unique.
- RSVPs are unique per (invitation, email) and stored normalised.
- Templates and categories keep their stored shape.
- Category names and slugs are unique.
- Every user has the role "admin" or "customer".
- Every id in use is below the counter.

Every state-changing method keeps `Valid()`.

Some behaviour is modelled as the code has it, where one might expect
otherwise:

- The custom-slug sanitiser drops characters outside `[a-z0-9-]`. It does
  not replace them with hyphens (`SanitizeAddsNoHyphen`).
- The public read filter of an invitation reduces to "paid". Its status is
  not consulted (`PublicMatch`).
- A free template creates an invitation that is already paid and published.
- `verifyPayment` does not check the payment's current status. A captured
  payment can be marked failed by a later bad signature (`StatusNotChecked`).
- `createOrder` charges the template's current price, not the price
  snapshot kept on the invitation (`OrderAmount`).
- `updateTemplate` derives the price from the request's `isPremium` alone.
  A premium template updated without `isPremium` gets price 0 and is
  refused (`UpdatedPriceStored`). One updated with `isPremium` but no price
  is saved with its price unset, which reads back as 0. Such a template is
  ordered for 0 (`PremiumAtZeroOrdersZero`), and activating or deactivating
  it then fails validation (`PriceClearedBlocksToggle`).

Hashing, bcrypt's password comparison, HMAC-SHA256 and JWT verification
are parameters of the methods that use them. So are fresh UUIDs and
tokens, the clock, the gateway's order id and mail delivery.

## Model

| member | source | states |
|---|---|---|
| SettingsModel.Ensured | models/SystemSettings.js:13-19 | the singleton accessor returns the stored record, or a new one at price 99 |
| SettingsModel.Updated | controllers/settingsController.js:18-34 | after an update the price is the supplied one; without one the record is the ensured one unchanged |
| Backend.Store.GetSettings | controllers/settingsController.js:6-13 | the record is returned and stored; an existing record is untouched |
| Backend.Store.UpdateSettings | controllers/settingsController.js:18-34 | the stored record becomes `Updated(old, price)` |
| InvitationModel.ParseStatus | models/Invitation.js:55-59 | the status enum accepts exactly the three status names |
| InvitationModel.Fresh | models/Invitation.js:42-76 | a new invitation has no payment, views or RSVPs, no expiry, auto-delete on, and the given fields |
| InvitationModel.WithDefaultExpiry | models/Invitation.js:109-115 | the hook sets an unset expiry to the event date plus 30 days and changes nothing else; a set expiry is kept |
| InvitationModel.ExpiryNotRecomputed | models/Invitation.js:109-115 | once set, the expiry survives later saves even when the event date changes |
| InvitationModel.SaveSetsExpiry | models/Invitation.js:87-115 | a saved invitation with valid content has an expiry, so the TTL index covers it exactly when auto-delete is on |
| InvitationModel.ExpiredAfterGrace | models/Invitation.js:103-115 | an invitation saved without an expiry is expired exactly once thirty days have passed since its event date |
| InvitationModel.ExpiredStaysExpired | models/Invitation.js:103-106 | an expired invitation stays expired at every later time |
| InvitationModel.DefaultSlug | models/Invitation.js:20-24 | the default slug is the first eight characters of the fresh UUID |
| InvitationModel.PutKeepsUniqueSlugs | models/Invitation.js:20-24 | writing a slug no other invitation holds keeps slugs unique |
| InvitationRules.KeepSlugChars | controllers/invitationController.js:122 | the regex replace leaves only `[a-z0-9-]` characters and never lengthens the text |
| InvitationRules.KeepSlugCharsCounts | controllers/invitationController.js:122 | every occurrence of a slug character survives the replace and every other character disappears |
| InvitationRules.KeepSlugCharsAppend | controllers/invitationController.js:122 | the replace works character by character in order: replacing in a concatenation concatenates the results |
| InvitationRules.SanitizeSlug | controllers/invitationController.js:122 | the sanitised slug holds only slug characters; it is the beginning of the lower-cased, filtered input, of length 50 or the whole of it when that is shorter |
| InvitationRules.SanitizeFixedPoints | controllers/invitationController.js:122 | a text is left unchanged by the sanitiser if and only if it is a valid slug body |
| InvitationRules.SanitizeIdempotent | controllers/invitationController.js:122 | sanitising twice is sanitising once |
| InvitationRules.SanitizeAddsNoHyphen | controllers/invitationController.js:122 | the sanitiser never adds a hyphen: other characters are dropped, not replaced |
| InvitationRules.PublicMatch | controllers/invitationController.js:207-213 | the public filter holds if and only if the slug matches and the invitation is paid |
| InvitationHandlers.UpdatedStatus | controllers/invitationController.js:115 | a falsy status keeps the current one; any other must parse as a status |
| InvitationHandlers.SlugChange | controllers/invitationController.js:120-134 | an unchanged or absent slug is kept; a new one is sanitised and is refused with 400 when shorter than 3 or held by another invitation |
| InvitationHandlers.UpdatedExpiry | controllers/invitationController.js:137-139 | a given expiry is set; a falsy one is cleared and the hook refills it from the event date; an absent one keeps the current one |
| InvitationHandlers.Created | controllers/invitationController.js:12-51 | 404 for a missing template, 400 for an inactive one or for neither template nor design, a validation error for invalid content; the price, paid flag and status follow the template or the scratch price |
| InvitationHandlers.CreateReply | controllers/invitationController.js:51 | creation fails as `Created` does, and with a duplicate-key error when the default slug is already held |
| InvitationHandlers.Edited | controllers/invitationController.js:114-144 | the truthy fields replace the stored ones, the slug and expiry change as above, and the save validates content and status |
| InvitationHandlers.UpdateReply | controllers/invitationController.js:98-146 | 404 for a missing invitation, 403 for another owner's, otherwise `Edited` |
| InvitationHandlers.InsertInvitationOk | controllers/invitationController.js:51 | a created invitation under the next id keeps the store invariant |
| InvitationHandlers.EditedKeepsOk | controllers/invitationController.js:144 | an accepted update keeps the invitations in order |
| Backend.Store.CreateInvitation | controllers/invitationController.js:10-60 | the reply is `CreateReply`; only the scratch branch stores the settings record; the new invitation takes a fresh id |
| Backend.Store.GetMyInvitations | controllers/invitationController.js:65-71 | exactly the caller's invitations are listed |
| Backend.Store.GetInvitationById | controllers/invitationController.js:76-93 | 404 for a missing invitation, 403 for another owner's, otherwise that invitation |
| Backend.Store.UpdateInvitation | controllers/invitationController.js:98-146 | the reply is `UpdateReply` and only an accepted update is written |
| Backend.Store.DeleteInvitation | controllers/invitationController.js:151-173 | 404, 403, and 400 for a paid published invitation; otherwise the invitation is removed |
| Backend.Store.GetPublicInvitation | controllers/invitationController.js:206-226 | the paid invitation with the slug is returned with one more view; 404 and no change otherwise |
| RsvpModel.ParseResponse | models/RSVP.js:25-29 | the response enum accepts exactly the five response names |
| RsvpModel.NormalizeEmailIdempotent | models/RSVP.js:15-20 | trimming and lower-casing an address twice is doing it once |
| RsvpModel.NormalizedFixedPoints | models/RSVP.js:15-20 | an address is stored as given if and only if it is already trimmed and lower-case |
| RsvpModel.ResolveResponse | controllers/rsvpController.js:27 | an empty response becomes "attending"; any other must name a response |
| RsvpModel.ResolveGuests | controllers/rsvpController.js:28 | an absent or zero guest count becomes 1 |
| RsvpModel.Find | models/RSVP.js:43 | the lookup finds the record of the (invitation, email) pair, or reports that none exists |
| RsvpModel.FindAppended | models/RSVP.js:43 | a record appended for a new pair is found at the end |
| RsvpModel.CountForAppend | controllers/rsvpController.js:34-45 | a created RSVP adds one to its own invitation's count only |
| RsvpModel.CountForReplace | controllers/rsvpController.js:25-30 | rewriting an RSVP in place changes no count |
| RsvpModel.CountForNone | controllers/rsvpController.js:45 | an invitation with no RSVPs counts 0 |
| RsvpModel.NewestFirstFor | controllers/rsvpController.js:67 | the listing holds exactly the invitation's RSVPs, as many as it counts |
| RsvpModel.PositionsFor | controllers/rsvpController.js:67 | the positions listed are positions of the invitation's RSVPs, in ascending order |
| RsvpModel.PositionsForComplete | controllers/rsvpController.js:67 | every position of an RSVP of the invitation is listed |
| RsvpModel.NewestFirstOrder | controllers/rsvpController.js:67 | the listing is newest first: its i-th RSVP is the one at the invitation's i-th position from the end |
| RsvpModel.NewestFirstHead | controllers/rsvpController.js:67 | the first RSVP listed is the invitation's newest |
| RsvpHandlers.TrimmedPhone | models/RSVP.js:21-24 | a given phone is stored trimmed |
| RsvpHandlers.Answered | controllers/rsvpController.js:25-29 | the answered record takes the trimmed name, phone, resolved response and guest count and the message, and keeps invitation, email and creation time |
| RsvpHandlers.SubmitReply | controllers/rsvpController.js:7-48 | 404 unless the invitation exists and is paid; a validation error for a blank name, an unknown response, fewer than one guest or a blank new email; an existing pair is rewritten, a new one created |
| RsvpHandlers.Counted | controllers/rsvpController.js:45 | the invitation's counter goes up by one and nothing else changes |
| RsvpHandlers.SubmittedStored | models/RSVP.js:10-34 | an accepted RSVP has the stored shape |
| RsvpHandlers.ReplaceKeepsOk | controllers/rsvpController.js:25-30 | rewriting a record keeps counters and the pair index |
| RsvpHandlers.AppendKeepsOk | controllers/rsvpController.js:34-45 | creating a record and counting it keeps counters and the pair index |
| RsvpHandlers.CountersAfterAppend | controllers/rsvpController.js:45 | after the append and the increment every counter is right |
| RsvpHandlers.RsvpsAfterAppend | models/RSVP.js:43 | a record for a new pair keeps the pair index unique |
| RsvpHandlers.SubmitKeepsOk | controllers/rsvpController.js:7-48 | both outcomes of a submission keep the store invariant |
| RsvpHandlers.ResubmitChangesNothing | controllers/rsvpController.js:22-32 | submitting the same reply twice rewrites the record with itself |
| RsvpHandlers.ListReply | controllers/rsvpController.js:53-70 | 404, 403, otherwise exactly the invitation's RSVPs, newest first: the i-th is the one at the i-th position from the end |
| RsvpHandlers.ListMatchesCounter | controllers/rsvpController.js:67 | the owner's listing has as many RSVPs as the invitation's counter |
| RsvpHandlers.ExportReply | controllers/rsvpController.js:75-102 | fails as the listing does; otherwise the CSV of the listing, named after the slug |
| Backend.Store.SubmitRsvp | controllers/rsvpController.js:7-48 | the reply is `SubmitReply`; an update rewrites one record, a creation appends it and counts it, a failure changes nothing |
| Backend.Store.GetRsvpsByInvitation | controllers/rsvpController.js:53-70 | the reply is `ListReply` and its length is the invitation's counter |
| Backend.Store.ExportRsvpsCsv | controllers/rsvpController.js:75-102 | the reply is `ExportReply` |
| RsvpExport.HeaderLineBreaks | controllers/rsvpController.js:92 | the header is one line |
| RsvpExport.EscapeQuotes | controllers/rsvpController.js:94 | doubling quotes lengthens the message by its number of quotes |
| RsvpExport.EscapeRoundTrip | controllers/rsvpController.js:94 | reading the doubled quotes back gives the message |
| RsvpExport.EscapedQuotesDoubled | controllers/rsvpController.js:94 | escaping doubles the number of quotes |
| RsvpExport.Csv | controllers/rsvpController.js:92-97 | the document starts with the header, and is only the header when there are no RSVPs |
| RsvpExport.Rows | controllers/rsvpController.js:93-95 | one row per RSVP, in order |
| RsvpExport.RowSingleLine | controllers/rsvpController.js:93-94 | a row of single-line fields has no line break |
| RsvpExport.CsvLineBreaks | controllers/rsvpController.js:92-97 | n single-line RSVPs give max(n, 1) line breaks |
| PaymentModel.NewPayment | models/Payment.js:5-37 | a new payment is created, in INR, with no gateway payment or signature |
| PaymentModel.OrderAmount | controllers/paymentController.js:37-53 | a free template is refused; a premium one is charged its current price in paise; a scratch design needs a positive stored price |
| PaymentModel.OrderAmountInRupees | controllers/paymentController.js:69 | the stored rupees times 100 are the paise charged |
| PaymentModel.PremiumAtZeroOrdersZero | controllers/paymentController.js:41-45 | a premium template at price 0 is ordered for 0 |
| PaymentModel.SignedBody | controllers/paymentController.js:100 | the signed text is the order id, a bar, then the payment id |
| PaymentModel.SignedBodyInjective | controllers/paymentController.js:100 | for order ids without a bar the signed text determines the pair |
| PaymentModel.FieldText | controllers/paymentController.js:100 | an absent payment id is rendered "undefined" |
| PaymentModel.Verified | controllers/paymentController.js:106-117 | a wrong signature marks the payment failed; a right one stores the ids and marks it captured |
| PaymentModel.StatusNotChecked | controllers/paymentController.js:106-117 | the new status depends only on the signature, never on the old status |
| PaymentModel.FindOrder | controllers/paymentController.js:92 | the lookup finds the first payment of the order, or reports none |
| PaymentModel.CapturedOnly | controllers/paymentController.js:147 | exactly the captured payments |
| PaymentModel.CapturedOnlyAppend | controllers/paymentController.js:147 | a new payment joins the captured list at its end exactly when it is captured, which fixes the list in creation order, each captured payment once |
| PaymentModel.CapturedOf | controllers/paymentController.js:136 | exactly the caller's captured payments |
| PaymentModel.CapturedPositions | controllers/paymentController.js:136-138 | the positions listed hold the user's captured payments, in ascending order |
| PaymentModel.CapturedPositionsComplete | controllers/paymentController.js:136 | every position of a captured payment of the user is listed |
| PaymentModel.CapturedOfOrder | controllers/paymentController.js:136 | the filter keeps creation order: its i-th payment is the one at the i-th captured position |
| PaymentModel.SumReverse | controllers/paymentController.js:152 | the total does not depend on the listing order |
| PaymentModel.RevenueAppend | controllers/paymentController.js:152 | appending a payment adds its captured amount to the revenue |
| PaymentModel.NewOrderAddsNoRevenue | controllers/paymentController.js:65-71 | recording an order leaves the revenue unchanged |
| PaymentModel.RevenueUpdate | controllers/paymentController.js:106-117 | rewriting a payment changes the revenue by the difference of its captured amounts |
| PaymentModel.AllPaymentsReport | controllers/paymentController.js:146-159 | the report's revenue is the sum over the captured payments and its transaction count is the length of its listing |
| PaymentModel.ReportAppend | controllers/paymentController.js:146-159 | after one more payment, a captured one heads the listing (newest first) and adds one transaction; any other changes neither |
| PaymentHandlers.Populated | controllers/paymentController.js:18 | the populated template is the stored one, or none when it is missing |
| PaymentHandlers.OrderReplyOf | controllers/paymentController.js:15-84 | 404, 403, 400 when paid or when the amount is refused, 500 when the gateway fails, otherwise the order in INR for a whole number of rupees |
| PaymentHandlers.OrderRecord | controllers/paymentController.js:65-71 | the recorded payment is the caller's, for the invitation and order, at the amount in rupees |
| PaymentHandlers.AppendPaymentKeepsOk | controllers/paymentController.js:65-71 | recording a payment keeps the invitations' payment links valid |
| PaymentHandlers.MarkedPaid | controllers/paymentController.js:120-123 | the invitation is paid and linked to the payment, and nothing else changes |
| PaymentHandlers.VerifyReply | controllers/paymentController.js:89-130 | 404 for an unknown order, 400 for a wrong signature, a crash when the invitation is gone, otherwise the invitation marked paid |
| PaymentHandlers.PaymentsAfterVerify | controllers/paymentController.js:106-117 | the order's payment record is rewritten by `Verified`, whatever the outcome |
| PaymentHandlers.RewritePaymentKeepsOk | controllers/paymentController.js:117 | rewriting a payment for the same invitation keeps the links valid |
| PaymentHandlers.VerifyKeepsOk | controllers/paymentController.js:89-130 | a verification keeps the store invariant |
| PaymentHandlers.VerifyRevenue | controllers/paymentController.js:106-117 | a verification changes the revenue by the payment's amount at most, and only with a right signature |
| PaymentHandlers.MyPayments | controllers/paymentController.js:135-141 | exactly the caller's captured payments, newest first: as many as their positions, the i-th being the one at the i-th position from the end |
| Backend.Store.CreateOrder | controllers/paymentController.js:15-84 | the reply is `OrderReplyOf`; an accepted order appends its record |
| Backend.Store.VerifyPayment | controllers/paymentController.js:89-130 | the reply is `VerifyReply`, the payments are rewritten, only a success writes the invitation |
| Backend.Store.GetMyPayments | controllers/paymentController.js:135-141 | the reply is `MyPayments` |
| Backend.Store.GetAllPayments | controllers/paymentController.js:146-159 | the report is `AllPaymentsReport` of the stored payments, so its order and count are those `ReportAppend` fixes, and its revenue is the revenue of the store |
| CategoryModel.SlugOfSpec | models/Category.js:39-43 | the slug is the lower-cased name with each space replaced by a hyphen, character for character |
| CategoryModel.SlugOfShape | models/Category.js:39-43 | the slug holds no space and no upper-case letter |
| CategoryModel.PreSave | models/Category.js:39-43 | the slug is recomputed only when the name changed |
| CategoryModel.SlugMatchesOf | models/Category.js:39-43 | the character-wise description of the slug is the slug |
| CategoryModel.PutKeepsUnique | models/Category.js:5-15 | writing a category that clashes with no other keeps names and slugs unique |
| CategoryHandlers.NewCategory | controllers/categoryController.js:17 | the new category has the trimmed name, its slug, and is not published |
| CategoryHandlers.CreateCategoryReply | controllers/categoryController.js:7-24 | 400 for a taken name, a validation error for a blank one, a duplicate-key error for a taken slug, otherwise the new category |
| CategoryHandlers.InsertCategoryOk | controllers/categoryController.js:17 | a created category under the next id keeps the store invariant |
| CategoryHandlers.CategoryReply | controllers/categoryController.js:37-46 | 404, otherwise the category with its number of templates |
| CategoryHandlers.AllCategories | controllers/categoryController.js:29-32 | every category with its number of templates |
| CategoryHandlers.EditedCategory | controllers/categoryController.js:57-61 | truthy fields replace the stored ones and the slug follows a changed name |
| CategoryHandlers.EditedCategoryStored | controllers/categoryController.js:57-61 | an edited category with a name keeps the stored shape |
| CategoryHandlers.UpdateCategoryReply | controllers/categoryController.js:51-67 | 404, a validation error for a blank name, a duplicate-key error for a clash, otherwise the edited category |
| CategoryHandlers.PutCategoryOk | controllers/categoryController.js:61 | an accepted update keeps categories in order |
| CategoryHandlers.DeleteCategoryReply | controllers/categoryController.js:72-88 | 404, and a category is deleted if and only if no template names it |
| CategoryHandlers.PublishReply | controllers/categoryController.js:93-113 | 404, and a category is published if and only if it has at least three active templates |
| CategoryHandlers.UnpublishReply | controllers/categoryController.js:118-130 | 404, otherwise the category unpublished |
| CategoryHandlers.FlagKeepsOk | controllers/categoryController.js:93-130 | changing the published flag keeps categories in order |
| CategoryHandlers.RemoveCategoryOk | controllers/categoryController.js:82 | removing a category keeps categories in order |
| Backend.Store.CreateCategory | controllers/categoryController.js:7-24 | the reply is `CreateCategoryReply`; the category takes a fresh id |
| Backend.Store.GetCategories | controllers/categoryController.js:29-32 | the reply is `AllCategories` |
| Backend.Store.GetCategoryById | controllers/categoryController.js:37-46 | the reply is `CategoryReply` |
| Backend.Store.UpdateCategory | controllers/categoryController.js:51-67 | the reply is `UpdateCategoryReply` and only an accepted edit is written |
| Backend.Store.DeleteCategory | controllers/categoryController.js:72-88 | the reply is `DeleteCategoryReply` and only an accepted delete removes |
| Backend.Store.PublishCategory | controllers/categoryController.js:93-113 | the reply is `PublishReply` |
| Backend.Store.UnpublishCategory | controllers/categoryController.js:118-130 | the reply is `UnpublishReply` |
| TemplateModel.ParseBlockType | models/Template.js:9-13 | the block type enum accepts exactly the block type names |
| TemplateModel.ParseBackgroundType | models/Template.js:25 | the background enum accepts exactly four names |
| TemplateModel.ParseTextAlign | models/Template.js:39 | the alignment enum accepts exactly three names |
| TemplateModel.CastBlock | models/Template.js:4-63 | a block is accepted if and only if id, type and order are given and the type is known; content and styles default to `{}` |
| TemplateModel.DemoContent | models/Template.js:147-155 | the demo event is dated thirty days after now |
| TemplateModel.UpdatedPrice | controllers/templateController.js:67 | the price is the request's when the request says premium, otherwise 0 |
| TemplateModel.UpdatedPriceStored | models/Template.js:114-123 | an update that passes the price validator leaves a non-negative price, 0 for a free template, and a premium template keeps its status only if the request says so |
| TemplateHandlers.NewTemplate | controllers/templateController.js:8-22 | the new template has the trimmed name, premium only when asked, the price only when premium, and the schema defaults |
| TemplateHandlers.CreateTemplateReply | controllers/templateController.js:8-22 | a validation error unless category, name and preview image are given and a premium price is positive; otherwise the new template |
| TemplateHandlers.StoredPassesSave | models/Template.js:114-123 | a stored template passes the save check if and only if it is free or priced above 0; a premium template whose price reads back as the default 0 fails it |
| TemplateHandlers.EditedTemplate | controllers/templateController.js:57-78 | truthy fields replace the stored ones and the price follows the request's premium flag |
| TemplateHandlers.UpdateTemplateReply | controllers/templateController.js:57-78 | 404, a validation error when the save check fails, otherwise the edited template |
| TemplateHandlers.UpdatedTemplateStored | controllers/templateController.js:57-78 | an accepted update keeps the stored shape, and a premium template stays premium only when the request says so |
| TemplateHandlers.TemplateReply | controllers/templateController.js:43-52 | 404, otherwise the template |
| TemplateHandlers.DeleteTemplateReply | controllers/templateController.js:83-101 | 404, and a template is deleted if and only if no paid invitation uses it |
| TemplateHandlers.ToggleReply | controllers/templateController.js:134-163 | 404; a validation error if and only if the template is premium at price 0; otherwise the template with only the active flag set |
| TemplateHandlers.PriceClearedBlocksToggle | controllers/templateController.js:57-163 | an update of a premium template that gives `isPremium` but no price is accepted at price 0, and afterwards neither activate nor deactivate can save it |
| TemplateHandlers.PutTemplateOk | controllers/templateController.js:72 | writing a template in the stored shape keeps templates in order |
| TemplateHandlers.InsertTemplateOk | controllers/templateController.js:8-22 | a created template under the next id keeps the store invariant |
| Backend.Store.CreateTemplate | controllers/templateController.js:8-22 | the reply is `CreateTemplateReply`; the template takes a fresh id |
| Backend.Store.GetTemplates | controllers/templateController.js:27-30 | every template |
| Backend.Store.GetTemplatesByCategory | controllers/templateController.js:35-38 | exactly the templates of the category, active or not |
| Backend.Store.GetTemplateById | controllers/templateController.js:43-52 | the reply is `TemplateReply` |
| Backend.Store.UpdateTemplate | controllers/templateController.js:57-78 | the reply is `UpdateTemplateReply` and only an accepted edit is written |
| Backend.Store.DeleteTemplate | controllers/templateController.js:83-101 | the reply is `DeleteTemplateReply` and only an accepted delete removes |
| Backend.Store.SetTemplateActive | controllers/templateController.js:134-163 | the reply is `ToggleReply`: the flag is written for a free template or one priced above 0, and a premium template at 0 is refused with nothing written |
| PublicQueries.PublishedCategories | controllers/publicController.js:7-10 | exactly the published categories |
| PublicQueries.ActiveTemplates | controllers/publicController.js:15-20 | exactly the active templates |
| PublicQueries.ActiveIn | controllers/publicController.js:33-34 | exactly the active templates of the category |
| PublicQueries.TemplatesIn | controllers/categoryController.js:77 | exactly the templates of the category |
| PublicQueries.PaidUsing | controllers/templateController.js:92 | exactly the paid invitations using the template |
| PublicQueries.DeactivateShrinksListing | controllers/templateController.js:151-163 | deactivating a template removes it from its category's listing only |
| PublicQueries.PublishedWithSlug | controllers/publicController.js:26 | the lookup finds a published category with the lower-cased slug, or reports none |
| PublicQueries.CategoryPageReply | controllers/publicController.js:25-37 | 404 unless a published category has the slug; otherwise that category and its active templates |
| PublicQueries.CategoryPageUnique | controllers/publicController.js:25-37 | with unique slugs the page is the one category holding the slug, whatever its letter case |
| PublicQueries.PublicTemplateReply | controllers/publicController.js:42-52 | 404 for a missing or inactive template, otherwise the template |
| Backend.Store.GetPublicCategories | controllers/publicController.js:7-10 | exactly the published categories |
| Backend.Store.GetAllPublicTemplates | controllers/publicController.js:15-20 | exactly the active templates |
| Backend.Store.GetPublicTemplates | controllers/publicController.js:25-37 | the reply is `CategoryPageReply`; 404 exactly when no published category has the slug |
| Backend.Store.GetPublicTemplateById | controllers/publicController.js:42-52 | the reply is `PublicTemplateReply` |
| UserModel.WithoutPassword | controllers/adminUserController.js:15 | every field but the password is kept |
| UserModel.NewUser | controllers/authController.js:20-24 | a new account is a customer without a reset token |
| UserModel.WithResetToken | controllers/authController.js:145-151 | the digest is stored and expires ten minutes later; nothing else changes |
| UserModel.WithoutResetToken | controllers/authController.js:169-170 | both reset fields are cleared; nothing else changes |
| UserModel.ResetTokenWindow | controllers/authController.js:145-151 | a fresh token is accepted exactly by its own digest and for ten minutes |
| UserModel.ClearedRejectsAll | controllers/authController.js:199-201 | after clearing, no token is accepted |
| UserHandlers.FirstWithEmail | controllers/authController.js:13 | the lookup finds the earliest user with the address, or reports none |
| UserHandlers.FirstAccepting | controllers/authController.js:188-191 | the lookup finds a user holding the digest unexpired, or reports none |
| UserHandlers.UserReply | controllers/adminUserController.js:14-23 | 404 for a missing user, otherwise the user without its password |
| UserHandlers.AllUsers | controllers/adminUserController.js:6-9 | every user, none with its password |
| UserHandlers.RoleReply | controllers/adminUserController.js:28-47 | 404 before the role is checked, 400 for a role other than admin and customer, otherwise only the role changes |
| UserHandlers.RegisterReply | controllers/authController.js:10-38 | 400 if and only if the address is registered, otherwise a new customer |
| UserHandlers.RegisterTwiceRefused | controllers/authController.js:13-18 | an address, once registered, is refused the second time |
| UserHandlers.InsertUserOk | controllers/authController.js:20-24 | a new account keeps users in order |
| UserHandlers.LoginReply | controllers/authController.js:43-60 | the user with the address logs in if and only if the password matches; 401 otherwise |
| UserHandlers.UnknownEmailNeverLogsIn | controllers/authController.js:46-58 | an unregistered address never logs in |
| UserHandlers.RefreshReply | controllers/authController.js:216-243 | 401 without a token, for a token that fails verification, or for a missing user |
| UserHandlers.EditedProfile | controllers/authController.js:99-104 | a falsy name or email keeps the stored one; the password changes only when given |
| UserHandlers.EmptyEditKeepsProfile | controllers/authController.js:99-104 | an update with no fields changes nothing |
| UserHandlers.ProfileReply | controllers/authController.js:95-118 | 404 for a missing account, otherwise the edited profile with its role unchanged |
| UserHandlers.ChangePasswordReply | controllers/authController.js:248-270 | 404, 400 with the password kept when the current one does not match, otherwise only the password changes |
| UserHandlers.ForgotTarget | controllers/authController.js:133-138 | 404 if and only if no user has the address |
| UserHandlers.AfterForgot | controllers/authController.js:142-176 | a delivered token is accepted exactly for its digest and ten minutes; an undelivered one is cleared and never accepted; nothing else changes |
| UserHandlers.ResetReply | controllers/authController.js:182-211 | 400 unless a user holds the digest unexpired; that user gets the new password and loses both reset fields |
| UserHandlers.ResetTwiceRefused | controllers/authController.js:199-201 | a used token is refused at any later time |
| UserHandlers.PutUserOk | controllers/adminUserController.js:43 | writing a user with a valid role keeps users in order |
| Backend.Store.RegisterUser | controllers/authController.js:10-38 | the reply is `RegisterReply`; the user takes a fresh id; refused exactly when the address is taken |
| Backend.Store.Login | controllers/authController.js:43-60 | the reply is `LoginReply` |
| Backend.Store.Authenticate | middleware/authMiddleware.js:5-31 | a request passes only with an existing user; a non-empty cookie is authenticated as given, and otherwise the piece after `Bearer` of the authorization header is |
| Backend.Store.Refresh | controllers/authController.js:216-243 | the reply is `RefreshReply` |
| Backend.Store.UpdateUserProfile | controllers/authController.js:95-118 | the reply is `ProfileReply` and only an accepted edit is written |
| Backend.Store.ChangePassword | controllers/authController.js:248-270 | the reply is `ChangePasswordReply` and only a match changes the password |
| Backend.Store.ForgotPassword | controllers/authController.js:131-177 | 404 and no change for an unknown address; otherwise the user becomes `AfterForgot` and the reply is 500 when the mail fails |
| Backend.Store.ResetPassword | controllers/authController.js:182-211 | the reply is `ResetReply` and only an accepted reset is written |
| Backend.Store.GetUsers | controllers/authController.js:123-126 | every user as stored |
| Backend.Store.GetAllUsers | controllers/adminUserController.js:6-9 | the reply is `AllUsers` |
| Backend.Store.GetUserById | controllers/adminUserController.js:14-23 | the reply is `UserReply` |
| Backend.Store.UpdateUserRole | controllers/adminUserController.js:28-47 | the reply is `RoleReply` and only an accepted role is written |
| AuthMiddleware.BearerPiece | middleware/authMiddleware.js:10-11 | a header yields its second space-separated piece if and only if it starts with "Bearer" and that piece is non-empty |
| AuthMiddleware.BearerRoundTrip | middleware/authMiddleware.js:10-11 | "Bearer " followed by a token without spaces yields that token |
| AuthMiddleware.SelectToken | middleware/authMiddleware.js:7-12 | a non-empty cookie wins; the header is consulted only without one |
| AuthMiddleware.Authenticate | middleware/authMiddleware.js:14-30 | 401 without a token, for a token that fails verification, or for an id with no user |
| AuthMiddleware.Protect | middleware/authMiddleware.js:5-31 | the token is selected, then authenticated; a passing request has an existing user |
| AuthMiddleware.AdminGate | middleware/authMiddleware.js:34-40 | a request passes if and only if its user is an admin; 403 otherwise |
| Text.Lower | models/RSVP.js:15-20 | lower-casing maps each character and keeps the length |
| Text.LowerIdempotent | models/RSVP.js:15-20 | lower-casing twice is lower-casing once |
| Text.Trim | models/RSVP.js:10-20 | trimming leaves no white space (as JavaScript's `trim` defines it) at either end and never lengthens |
| Text.TrimSplits | models/RSVP.js:10-20 | trimming removes only white space: the input is the result with a run of white space before and after it |
| Text.TrimUnique | models/RSVP.js:10-20 | any text without white space at its ends that sits between two runs of white space of the input is the trimmed result, so the two lemmas determine `trim` completely |
| Text.TrimFixedPoints | models/RSVP.js:10-20 | a text is unchanged by trimming if and only if it has no space at either end |
| Text.JoinSplit | models/Category.js:41 | splitting on a character and joining with another replaces one by the other |
| Text.DecimalRoundTrip | controllers/rsvpController.js:94 | the decimal text of a number reads back as that number |
| StoreInvariants.OkGrow | models/Invitation.js:20-24 | issuing a fresh id keeps the store invariant |
| StoreInvariants.InvitationsOkPut | models/Invitation.js:20-24 | writing an invitation in order whose slug is free keeps invitations in order |
| StoreInvariants.InvitationsOkRemove | controllers/invitationController.js:171 | removing an invitation keeps invitations in order |

## Left out

- Server setup, routes, seeding and the rate limiter are not part of this model. They hold no handler logic.
- errorMiddleware.js and models/User.js are not part of this model. The three failures `Invalid`, `Duplicate` and `Crash` stand for what reaches the error middleware. A user's password is the value last assigned; any hashing the user schema applies is not modelled.
- Cryptography is parameters: HMAC-SHA256 (`sign`), the SHA-256 digest of reset tokens (`digest`), bcrypt's `matchPassword` (`matches`) and JWT verification (`decode`). JWT signing, cookies and tokens in responses are left out.
- UUIDs, random tokens and the clock are parameters (`uuid`, `digest`, `now`).
- The gateway's order call is the parameter `gatewayOrder`: its id, or none when the call fails. The order's `receipt` and the public key in the reply are left out.
- Mail delivery is the parameter `delivered`. The reset message and its URL are not modelled.
- Image uploads (`uploadInvitationImage`, `uploadTemplateImage`) are left out. They only call the image host.
- `toggleInvitationStatus` is not modelled.
- `logoutUser` only clears cookies, and `getUserProfile` only echoes the user the middleware attached. Neither is modelled.
- Concurrency is left out: requests run one at a time. Races between two submissions of the same RSVP, or between an order and its verification, are not modelled.
- `populate` and `select` projections are left out. The listings return ids or whole records. `.sort({ createdAt: -1 })` is modelled as reversal only for RSVPs and payments, which are kept in creation order. Map-based listings are unordered.
- Mixed and Object fields (content details, custom data, designs, styles, config) are opaque `Blob`s. The handlers only copy or replace them.
- Prices and amounts are integers. Floating-point prices, and rounding in `amount / 100`, are not modelled.
- The TTL sweep is not modelled. The model states only which documents the TTL index covers.
- Lower-casing is ASCII-only: Unicode case mapping is not modelled. Trimming removes the full set of white-space and line-terminator characters JavaScript's `trim` removes.
- Absent text fields in a request are the empty string, which is also falsy. `null`, and values of other JSON types, are not distinguished.
- VerifyReply: assumes the request carries an order id. The caller is not checked against the payment's owner, as in the code.
- The unique index on users' emails is not modelled, because the user schema is not part of this model. `findOne({ email })` returns the earliest-created match.
