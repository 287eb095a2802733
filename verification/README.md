# Rallya: a verified model

Rallya is an event platform. Its services change shared rows in transactions, and several of its
guarantees span more than one service. This project models the rows and the calls in Dafny and proves
those guarantees for every input and every run of whole calls. The calls whose reads outside their
transaction decide about a guarantee are also split there and proved over every interleaving: Collect,
the revert of a check-in and the saves of whole attendee rows (`DoorRace`); claims, payments, session
links, cancellations and expiries of orders, with the staff edits and deletions of their ticket types
(`OrderRace`); role changes, removals, additions and invites (`OrgRace`); mutations of events
(`EventRace`) and reads through the public cache (`EventCache`); refreshes (`RefreshRace`); password
resets and requests for them (`ResetRace`); guesses at email codes and resends (`OtpRace`, `OtpBound`).
Every other call is one step.

A step of an interleaving is a read whose answer is used later, or the writes of one transaction together
with what it reads under a row lock or enforces by a unique index. The source sets no isolation level, so
a read made without a lock may be outdated by the time of the writes, and only the steps themselves are
taken as indivisible.

Each domain has the same shape. A specification module gives the rows as values and one function per
call. A runs module proves what every run keeps. A race module, where the code reads outside its
transaction, splits the call and proves exactly when the guarantee survives. A service module holds a
class whose fields are updated in place and whose methods (with the source's loops) are proved to do
what the specification says. What a call means for its caller (when it is accepted, what it leaves
alone, what undoes it) is stated on the tables themselves, in a laws module or beside the runs.

| files | what they model |
|---|---|
| `Door`, `DoorMint`, `DoorLaws`, `DoorRuns`, `DoorStock`, `DoorBatch`, `DoorRace`, `DoorService` | attendee rows, the scan log and kit handouts, shared by three services |
| `Orders`, `OrderLaws`, `OrderRuns`, `OrderSweep`, `OrderRace`, `OrderService` | orders, the ticket counters they hold units of, and the staff calls on ticket types |
| `Iam`, `IamSync`, `IamReseed`, `IamService` | Casbin rows as an index of memberships and role definitions |
| `Org`, `OrgRuns`, `OrgRace`, `OrgIndex`, `OrgService` | organizations, memberships, invites, and the groupings synchronised from them |
| `EventCache`, `EventRace`, `EventService` | the public event cache, and the mutations that save event rows and purge it |
| `Refresh`, `RefreshRace`, `ResetRace`, `Otp`, `OtpRace`, `OtpBound`, `AuthService` | refresh-token rotation, password resets and email codes |
| `RateLimit`, `Spacing` | the fixed-window rate limiter and its Redis script, and how many spaced instants fit an interval |
| `Slug`, `Payload`, `Text` | slugs and QR payloads |
| `Common` | options, replies, finite-set counting |

Clocks, drawn ids and tokens, plan limits, lookups in other domains, the Unicode tables, the UUID
codec, the keyed MAC and the token hash are parameters.

## Findings

These are places where the code does less than its comments or its neighbours suggest. Each is stated
as a lemma, with the exact condition under which the guarantee does hold.

- A handout is stranded in both directions of one overlap: a Collect whose attendee is reverted between
  its status read and its transaction, and a revert whose attendee collects between its handout count and
  its row flip. A name correction or cancellation loaded before an admission takes the admission back
  (`DoorRace.RaceSafeIff`, `DoorRace.WindowsReached`).
- An order transaction on a copy loaded before the order was cancelled or expired breaks the ticket
  counter (`OrderRace.RaceSafeIff`, `OrderRace.PaidAfterCancelReached`). So does a staff edit, activation
  or pause of a ticket type: it saves the counter it loaded, and a unit sold in between is on sale again
  (`OrderRace.SoldTwice`). A type deleted on an old count of its sales leaves an order that holds units of
  nothing and can no longer be cancelled (`OrderRace.SoldAndGone`).
- UpdateKit compares a new total with COLLECTED rows only, so reserved rows can later push `collected`
  above the total (`DoorStock.CutIsSafeIff`, `DoorStock.CutBelowPending`).
- A user sync leaves rows it cannot parse back: a role holding `@` in an organization the user left, or
  a domain that is not a printed UUID. The second kind can also cost a kept organization its rows
  (`IamSync.ConvergesIff`).
- Event and organization deletion are soft, although their comments say hard and cascading: both models
  carry a `DeletedAt` column (internal/event/model/event.go:55, internal/organization/model/org.go:55).
  A deleted event keeps its slug taken, so automatic slugs fail on it although the probe calls it free
  (`EventService.EventDesk.CreateEvent`); a deleted organization keeps its memberships, so a user sync
  gives its groupings back (`OrgIndex.RepairMirrorsIff`).
- Owners leaving or demoting themselves at once leave no owner, and an invite accepted and declined at
  once carries both stamps (`OrgRace.RaceSafeIff`, `OrgRace.LastOwnersLost`, `OrgRace.BothStamps`).
- Two acceptances of one invite at once, with a removal between their writes, make two memberships
  (`OrgRace.TakenOnceIff`, `OrgRace.SpentTwice`).
- An unpublish loaded before a cancel or a deletion brings the event back as a draft
  (`EventRace.RaceSafeIff`, `EventRace.RevivedByUnpublish`, `EventRace.UndeletedByUnpublish`).
- Two requests for a password reset at once leave two open tokens, and two resets at once both use one
  (`ResetRace.RaceSafeIff`, `ResetRace.TwoOpen`, `ResetRace.ResetsPerToken`, `ResetRace.TwoResets`).
- Two refreshes presenting one token at once both succeed (`RefreshRace.OneTokenTwiceReached`).
- m guesses in flight at once compare up to m - 1 wrong codes beyond the five tries, and n resends in
  flight leave up to n codes pending (`OtpRace.TriesPerCode`, `OtpRace.TwoAtOnce`,
  `OtpRace.PendingAtMost`).
- A reader that stores after a purge serves the old payload for a full TTL (`EventCache.StoreAfterPurge`).
- Below a window of one millisecond the Redis script counts nothing (`RateLimit.RedisAgrees`).
- A scan of a well-signed code for an unknown attendee is coded as an INVALID_CODE log row, but the log's
  foreign key refuses that row; the model has both schemas behind a flag (`Door.Config.foreignKeys`).
- `Terminal()` lists CONFIRMED, yet CancelOrder lets a confirmed order go; declining an invite is still in
  time at the very deadline, at which accepting is not. The model follows the code in both.

## Model

| member | source | states |
|---|---|---|
| Payload.HexRoundTrip | internal/attendee/utils/utils.go:36-68 | hex decoding undoes hex encoding, whose output has no dot and twice the length |
| Payload.VerifyIffSigned | internal/attendee/utils/utils.go:52-68 | a payload verifies exactly when it is an id, a token and the MAC of both under the secret |
| Payload.PayloadRoundTrip | internal/attendee/utils/utils.go:36-68 | a built payload verifies back to its id and token if and only if the token is non-empty and dot-free |
| Payload.GeneratedTokenScans | internal/attendee/utils/utils.go:21-68 | every generated token survives the round trip |
| Slug.Slugify | internal/event/utils/utils.go:10-27 | the character loop returns the words of the title joined by single dashes |
| Slug.SlugShape | internal/event/utils/utils.go:10-27 | the result is empty or matches the slug pattern |
| Slug.SlugFixedPoints | internal/event/service/event_service.go:37 | the non-empty fixed points are exactly the strings the slug pattern accepts |
| Slug.SlugifyIdempotent | internal/organization/utils/utils.go:46-63 | slugifying twice is slugifying once, for any title |
| Slug.TrimMeans | internal/event/service/event_service.go:384-394 | trimming takes what drops off both ends and no more |
| Slug.CandidatesValidAndDistinct | internal/event/service/event_service.go:867-888 | base, base-2, base-3 and so on are valid slugs, pairwise different |
| Slug.UniqueSlug | internal/event/service/event_service.go:867-888 | returns the first free candidate up to base-99; random exactly when all are taken; always a valid slug |
| DoorMint.MintFills | internal/attendee/service/attendee_service.go:49-77 | from any existing rows, one row per unit 0..q-1 afterwards, others untouched, tokens for exactly the new rows |
| DoorMint.FilledUnits | internal/attendee/service/attendee_service.go:49-77 | minting adds exactly the units that had no row |
| DoorMint.RemintIsNoop | internal/attendee/repository/attendee_repository.go:40-47 | minting an order again, with any other draws, changes nothing and returns no token |
| DoorRuns.EveryRunKeepsInv | internal/checkin/service/checkin_service.go:132-289 | in every run of whole calls: log rows alternate per attendee and give the row's status and stamp; the event's count is admissions minus reverts; active handouts belong to CHECKED_IN attendees of the kit's event; units, keys and links are unique |
| DoorRuns.RevertKeeps | internal/checkin/service/checkin_service.go:223-262 | the outstanding-handout guard keeps every active handout with a checked-in attendee |
| DoorRuns.CollectTxKeepsCore | internal/kit/service/kit_service.go:302-353 | the transaction keeps one active row per kit and attendee, one row per key, and the kit links |
| DoorRuns.TransitionKeeps | internal/kit/service/kit_service.go:372-418 | marking and voiding keep the whole door invariant |
| DoorRuns.DeleteKitKeeps | internal/kit/service/kit_service.go:240-272 | deleting a kit leaves no active row without its kit |
| DoorStock.ApplyActive | internal/kit/service/kit_service.go:302-353 | no call raises the units out of a kit above its current total |
| DoorStock.NeverAbovePeak | internal/kit/service/kit_service.go:277-358 | in every run of whole calls the active units are at most some total the kit has had |
| DoorStock.FitsForever | internal/kit/service/kit_service.go:179-236 | stock within the total stays within it until a total is changed |
| DoorStock.CutIsSafeIff | internal/kit/service/kit_service.go:209-222 | after a cut, collected stays within the total in every later run of whole calls if and only if the total also covers the reserved rows |
| DoorStock.CutBelowPending | internal/kit/service/kit_service.go:213-222 | from an empty database: an accepted cut that is not safe, with the calls that show it |
| DoorStock.RetryConverges | internal/kit/repository/kit_repository.go:127-137 | a retried Collect under a used key returns the first row and changes nothing |
| DoorStock.VoidedIsFinal | internal/kit/service/kit_service.go:372-418 | a voided row never changes again |
| DoorStock.RemainingIsHonest | internal/kit/service/kit_service.go:149-175 | a fresh Collect is refused as exhausted exactly when the listing shows nothing remaining |
| DoorLaws.CollectMeans | internal/kit/service/kit_service.go:277-358 | on the tables: when a Collect is accepted, and which of the kit's pending and collected handouts gain the new row, with its stamps |
| DoorLaws.ReserveThenMark | internal/kit/service/kit_service.go:337-370 | reserving and then marking with the same staff and time leaves the state of a direct hand-out; what was handed out directly cannot be marked again |
| DoorLaws.MarkAndVoid | internal/kit/service/kit_service.go:361-418 | only a PENDING handout is marked, and stamped; only a PENDING or COLLECTED one is voided, and keeps its stamps |
| DoorLaws.CreateThenDelete | internal/kit/service/kit_service.go:106-145 | a kit is created exactly while the plan allows it and one more; deleting it at once undoes that |
| DoorLaws.InAndOut | internal/attendee/service/attendee_service.go:280-345 | a REGISTERED row is admitted once and then reported as already in; a revert gives its rows back; a cancelled one is reported as cancelled |
| DoorLaws.MintedRow | internal/attendee/service/attendee_service.go:49-77 | every minted row is a REGISTERED one of its order, unit, event, buyer and token; its buyer can cancel it and nobody else |
| DoorLaws.WalkIn | internal/attendee/service/attendee_service.go:92-115 | a row added by hand is admitted at its own event only, and no account can cancel it |
| DoorBatch.BatchOutcomes | internal/checkin/service/checkin_service.go:205-218 | one outcome per code; position i is CHECKED_IN exactly when its code authenticates a then-REGISTERED attendee of the event not admitted earlier in the batch |
| DoorBatch.BatchSucceedsIff | internal/checkin/service/checkin_service.go:205-218 | exactly when a batch runs to its end |
| DoorBatch.BatchOrderIrrelevant | internal/checkin/service/checkin_service.go:205-218 | permuting or duplicating codes leaves the same attendees checked in |
| DoorBatch.FreshOrderScansIn | internal/attendee/service/attendee_service.go:49-77 | minting n units and scanning their payloads admits every one |
| DoorBatch.FreshOrderCheckedIn | internal/attendee/service/attendee_service.go:266-276 | afterwards exactly those n rows have been checked in |
| DoorRace.CommitSafeIff | internal/kit/service/kit_service.go:290-353 | a Collect committed on an old read keeps the guarantee exactly when it inserts nothing or every revert since was re-scanned |
| DoorRace.FlipSafeIff | internal/checkin/service/checkin_service.go:233-262 | a revert whose handout count was read earlier is safe exactly when there is no active handout at its row flip |
| DoorRace.SaveSafeIff | internal/attendee/repository/attendee_repository.go:82-84 | saving an attendee row loaded earlier is safe exactly when copy and row agree on being CHECKED_IN |
| DoorRace.RaceSafeIff | internal/kit/service/kit_service.go:277-358 | with Collect, revert and whole-row saves split at their reads: over any interleaving the door invariant holds throughout exactly when every step was harmless, as the next three rows say |
| DoorRace.QuietRunsAreSafe | internal/checkin/service/checkin_service.go:223-262 | safe when no revert of an attendee commits while a Collect or row save for them is in flight, no handout goes to them while a revert is, and nobody admits them while a row save is |
| DoorRace.ExclusiveRunsAreSafe | internal/attendee/service/attendee_service.go:170-345 | safe when calls on one attendee do not overlap, however calls on different attendees interleave |
| DoorRace.OnlyRevertLeaves | internal/attendee/service/attendee_service.go:328-345 | nothing but an accepted revert takes a row out of CHECKED_IN |
| DoorRace.RevertInTheWindow | internal/kit/service/kit_service.go:290-302 | read, revert, commit: accepted at every step, and a handout is stranded |
| DoorRace.CollectInTheWindow | internal/checkin/service/checkin_service.go:233-241 | count, a whole Collect, flip: accepted at every step, and a handout is stranded |
| DoorRace.WindowsReached | internal/attendee/service/attendee_service.go:170-192 | from an empty database: both windows, and a name correction that takes an admission back |
| DoorService.Desk.ApplyCheckin | internal/attendee/service/attendee_service.go:266-276 | the verdict names the row's outcome and the row flips exactly on CHECKED_IN; other rows stay |
| DoorService.Desk.ApplyCheckinManual | internal/attendee/service/attendee_service.go:280-290 | the same without a token |
| DoorService.Desk.ScanQR | internal/checkin/service/checkin_service.go:132-173 | a code authenticates a row or is INVALID_CODE; an authentic one is told WRONG_EVENT, CHECKED_IN, ALREADY_CHECKED_IN or CANCELLED exactly by the row's event and status; one log row says the same, and only an admission changes the row |
| DoorService.Desk.ScanManually | internal/checkin/service/checkin_service.go:176-202 | the same by hand, for every attendee there is; an unknown one is refused without a log row |
| DoorService.Desk.ScanBatch | internal/checkin/service/checkin_service.go:205-218 | the loop is the sequential composition of scans and stops at the first error |
| DoorService.Desk.RevertCheckin | internal/checkin/service/checkin_service.go:223-262 | accepted exactly for a CHECKED_IN row of the event without an active handout; the row loses status and stamp, and one log row names the staff |
| DoorService.Desk.MintForOrder | internal/attendee/service/attendee_service.go:49-77 | the loop over units leaves one row per unit and returns the new tokens |
| DoorService.Desk.CancelOwn | internal/attendee/service/attendee_service.go:240-259 | only the holder's REGISTERED row changes; afterwards no scan admits it and cancelling again is refused; the door invariant is kept |
| DoorService.Desk.CancelOrderRows | internal/attendee/repository/attendee_repository.go:87-91 | the bulk update cancels exactly the order's REGISTERED rows |
| DoorService.Desk.HandOut | internal/kit/service/kit_service.go:277-358 | accepted exactly when attendee, kit, stock and earlier handouts allow; the new row is COLLECTED now by this member of staff, or PENDING without stamps when reserved; a retry and a refusal change nothing |
| DoorService.Desk.MoveHandout | internal/kit/service/kit_service.go:372-418 | puts no unit of any kit out, voiding gives exactly its own back, the same move twice is refused, and the door invariant is kept |
| DoorService.Desk.UpdateKitTotal | internal/kit/service/kit_service.go:179-236 | the total changes exactly when it covers the COLLECTED rows |
| DoorService.Desk.RemoveKit | internal/kit/service/kit_service.go:240-272 | deleted exactly when no row is active; other kits and their handouts stay |
| DoorService.Desk.CountsByKit | internal/kit/repository/kit_repository.go:71-95 | the tally loop counts each kit and status exactly |
| DoorService.Desk.ListKits | internal/kit/service/kit_service.go:149-175 | every kit of the event once, with its counts and what remains |
| OrderRuns.EveryRunConserves | internal/order/service/order_service.go:178-541 | in every run of whole calls, each counter equals the units of its live orders and stays within its total; keys and sessions are unique |
| OrderRuns.CommitConservesIff | internal/order/service/order_service.go:454-494 | a commit on a copy loaded earlier conserves exactly when the row is still live, or it is refused |
| OrderRuns.PlaceKeeps | internal/order/service/order_service.go:227-263 | a claim whose reads were made earlier keeps conservation whenever its transaction comes |
| OrderRuns.SaveConservesIff | internal/ticketing/service/ticket_service.go:180-239 | saving a ticket row loaded earlier conserves exactly when its counter is still the type's, or none when the type has been deleted |
| OrderRuns.DropConservesIff | internal/ticketing/service/ticket_service.go:242-268 | deleting a type conserves exactly when nothing of it is sold at that moment |
| OrderRuns.ReleaseNeverUnderflows | internal/ticketing/service/ticket_service.go:375-390 | releasing a live order's units is never refused |
| OrderRuns.CreateKeeps | internal/order/service/order_service.go:178-268 | claiming keeps conservation, whichever way it ends |
| OrderRuns.ReplayReturnsOriginal | internal/order/repository/order_repository.go:40-46 | a repeated key returns the original order, whatever else the request says |
| OrderRuns.HoldLasts | internal/order/service/order_service.go:208-222 | a new priced order can be swept from exactly 15 minutes after its claim, a free one never; only its own counter moved |
| OrderRuns.PaidOnce | internal/order/service/order_service.go:381-421 | a redelivered payment succeeds, changes nothing, and never touches a counter |
| OrderRuns.ApplyRank | internal/order/model/order.go:36-38 | every status change strictly lowers the order's rank; its claim never changes |
| OrderRuns.AtMostTwoChanges | internal/order/service/order_service.go:381-541 | an order changes status at most twice in any run of whole calls |
| OrderRuns.SweepExact | internal/order/service/order_service.go:500-541 | a sweep expires exactly the picked orders whose organization resolves |
| OrderLaws.CancelMeans | internal/order/service/order_service.go:454-494 | that on the tables, for every conserved state |
| OrderLaws.CreateMeans | internal/order/service/order_service.go:178-268 | every refusal has exactly its cause; a replay answers with the original; a new order is its caller's, at the type's price, held for 900 seconds or confirmed when free |
| OrderLaws.PayMeans | internal/order/service/order_service.go:381-421 | every refusal has exactly its cause; a payment writes status, session, intent and time of its own order and nothing else |
| OrderLaws.LinkMeans | internal/order/service/order_service.go:427-437 | a session is written to a payable order exactly when no other order has it |
| OrderLaws.EditsOneColumn | internal/ticketing/service/ticket_service.go:180-239 | each field of an edit changes its own column under its own bound, and a joint edit is accepted exactly when each field is |
| OrderLaws.NewTypeLife | internal/ticketing/service/ticket_service.go:62-113 | a new type is not on sale, can be activated once and paused once after that, and deleting it undoes its creation |
| OrderLaws.DeleteMeans | internal/ticketing/service/ticket_service.go:242-268 | a type is deleted exactly while its count of sales is zero |
| OrderSweep.PassesDrain | internal/order/service/order_service.go:500-517 | k sweeps of batch b leave exactly n - min(n, k*b) of n overdue holds |
| OrderSweep.DrainedIff | internal/order/repository/order_repository.go:69-76 | drained if and only if k*b >= n; the rows and the units released do not depend on which rows the limit picked |
| OrderRace.RaceSafeIff | internal/order/service/order_service.go:454-541 | over any interleaving of the reads and transactions of claims, order calls and staff calls, conserved throughout exactly when every accepted order transaction found its order live, every saved ticket row carried the current counter, and nothing was sold of a deleted type |
| OrderRace.ExclusiveRunsConserve | internal/order/service/order_service.go:381-541 | conserved when calls on one order do not overlap and no unit of a type is claimed or given back between a staff call's read of the type and its write; everything else may interleave |
| OrderRace.WholeIsDone | internal/ticketing/service/ticket_service.go:180-326 | a claim, an edit and a deletion are their reads and then their transactions |
| OrderRace.StaleSave | internal/ticketing/repository/ticket_repository.go:52-54 | from any state: a claim between a staff call's load and its save breaks the counter |
| OrderRace.SoldTwice | internal/ticketing/service/ticket_service.go:180-239 | from an empty database: loaded to be repriced, sold out, saved; the order holds its unit and the unit is on sale |
| OrderRace.SoldAndGone | internal/ticketing/service/ticket_service.go:242-268 | from an empty database: sales counted, sold, deleted; the order is left without its type and cannot be cancelled |
| OrderRace.PaidAfterCancel | internal/order/service/order_service.go:381-421 | a payment loaded before a cancel confirms an order whose units are already back |
| OrderRace.PaidAfterCancelReached | internal/order/service/order_service.go:381-494 | from an empty database: bought, being paid, cancelled, paid; the order is confirmed and its unit on sale |
| OrderService.OrderDesk.Reserve | internal/ticketing/service/ticket_service.go:341-362 | accepted, the counter stays within its total and releasing the same units restores every counter; refused, nothing changes |
| OrderService.OrderDesk.Release | internal/ticketing/service/ticket_service.go:375-390 | refused exactly when it would take a counter below zero; accepted, reserving the same units while on sale restores every counter |
| OrderService.OrderDesk.Create | internal/order/service/order_service.go:178-268 | row and counter move together or not at all; every refusal in the source's order |
| OrderService.OrderDesk.Pay | internal/order/service/order_service.go:381-421 | confirms a payable order once, recording session, intent and time; other statuses are refused |
| OrderService.OrderDesk.Link | internal/order/service/order_service.go:427-437 | records a session on a payable order only, unique across orders |
| OrderService.OrderDesk.CancelByUser | internal/order/service/order_service.go:454-494 | accepted exactly for the order's user or a manager while it holds units and the organization resolves; to anyone else the order does not exist; counter and holding drop by its units, nothing else moves, and cancelling again is refused |
| OrderService.OrderDesk.ExpireOne | internal/order/service/order_service.go:519-541 | from the queried copy: units released and row EXPIRED together, or nothing |
| OrderService.OrderDesk.SweepExpired | internal/order/service/order_service.go:500-517 | the loop over the picks leaves what the sweep defines; its counter is min(batch, overdue) when organizations resolve |
| IamSync.ConvergesIff | internal/admin/service/admin_service.go:315-386 | from any rows, the sync reaches the membership truth if and only if every row the user had was tidy |
| IamSync.UntidyStays | internal/admin/service/admin_service.go:347-365 | a row that is not tidy outlives every sync |
| IamSync.OnlyUntidyHarms | internal/admin/service/admin_service.go:405-410 | only the key of an untidy row can remove a row of a kept organization |
| IamSync.OthersUntouched | internal/iam/sync.go:27-47 | nobody else's row is added or removed |
| IamSync.TruthShape | internal/admin/service/admin_service.go:315-386 | one fixed row per membership, equal to its role; old and assigned customs; nothing elsewhere |
| IamSync.SecondRunIsNoop | internal/admin/service/admin_service.go:315-386 | from any rows at all a second sync changes nothing and reports 0 added, 0 removed |
| IamSync.DiffBalances | internal/admin/service/admin_service.go:366-380 | Total = before + Added - Removed |
| IamSync.KeysCountRows | internal/admin/service/admin_service.go:390-402 | the reported keys count rows when no domain holds an @ |
| Iam.SplitKeyAt | internal/admin/service/admin_service.go:405-410 | a key reads back as its row when the role has no @ |
| Iam.SplitKeyInside | internal/admin/service/admin_service.go:405-410 | otherwise the role is cut at its first @ and its tail joins the domain |
| IamReseed.ReseedHeals | internal/admin/service/admin_service.go:234-310 | afterwards exactly the rows called for and the old rows that are not orphans; other domains untouched |
| IamReseed.ReseedReport | internal/admin/service/admin_service.go:283-310 | rows inserted = Added + Removed, Total = before + Added, Removed counts the rows that went |
| IamReseed.SecondReseedIsNoop | internal/admin/service/admin_service.go:283-310 | a second reseed changes nothing and reports 0/0 |
| IamReseed.DefinitionOrderIrrelevant | internal/admin/service/admin_service.go:234-270 | neither the order nor the repetition of definitions matters |
| IamReseed.RetryHeals | internal/admin/service/admin_service.go:243-247 | an undecodable definition stops the repair without removing a row, and a later clean run ends where one would have |
| IamReseed.TablesGrantAllowed | internal/iam/model.conf:25 | with healed rows and held groupings, whatever the tables grant is allowed |
| IamReseed.RepairedMatchesTables | internal/iam/model.conf:25 | after reseed and sync the matcher answers exactly what memberships and definitions say, or superadmin, when the old rows held no surplus |
| IamService.Enforcer.SyncMembership | internal/iam/sync.go:27-47 | the row loop leaves exactly the named fixed role in the domain |
| IamService.Enforcer.SyncCustomGrouping | internal/iam/sync.go:52-63 | the named row is there afterwards exactly when granted, every other row as before; twice is once, and the opposite call undoes it |
| Iam.CustomCommutes | internal/iam/sync.go:27-63 | custom and fixed-role synchronisations never disturb each other, in either order |
| IamService.Enforcer.SyncUserPolicies | internal/admin/service/admin_service.go:315-386 | whatever order memberships and keys are walked in, the same final rows and the exact diff |
| IamService.Enforcer.GroupingSet | internal/admin/service/admin_service.go:390-402 | the snapshot holds exactly the user's keys |
| IamService.Enforcer.SeedOrgPolicies | internal/iam/policy.go:97-130 | adds exactly the missing seed rows |
| IamService.Enforcer.EnsureCustomRolePolicies | internal/iam/custom.go:15-39 | adds the role's rows and returns how many were missing |
| IamService.Enforcer.RemoveCustomRolePolicies | internal/iam/custom.go:43-63 | drops exactly the role's rows in the domain and counts them |
| IamService.Enforcer.ListCustomRolePolicies | internal/iam/custom.go:67-86 | the custom roles with rows, each with exactly its permissions |
| IamService.Enforcer.RematerializeCustomRoles | internal/admin/service/admin_service.go:234-270 | definitions built up to the first undecodable one; then, only if there was none, exactly the orphans swept and counted |
| IamService.Enforcer.ReseedOrgPolicies | internal/admin/service/admin_service.go:283-310 | the same repaired rows and exact report for any walk over the live roles |
| IamService.Enforcer.SeedSuperAdmins | internal/iam/policy.go:174-223 | with a list, a subject is a superadmin afterwards exactly when a listed address resolves to it; other rows stay, again changes nothing, and anyone else is let through by a policy row only; an empty list changes nothing |
| Iam.SuperAdminsMean | internal/iam/policy.go:174-223 | that on the rows, without the loop |
| Iam.MatricesMean | internal/iam/policy.go:43-95 | what the seeded ADMIN and MEMBER matrices allow, object by object |
| OrgRuns.EveryRunKeepsInv | internal/organization/service/member.go:44-193 | in every run of whole calls each organization has an OWNER, each address at most one open invite, and no invite both stamps |
| OrgRuns.EveryOwnerDescends | internal/organization/service/member.go:44-193 | in every run of whole calls every OWNER goes back to the creator through grants made by someone OWNER at that moment |
| OrgRuns.OwnerInvitesHaveGrantors | internal/organization/service/invite.go:26-74 | every OWNER invite was issued by someone OWNER when it was issued |
| OrgRuns.TwoOwnersLeave | internal/organization/service/member.go:140-193 | two guarded removals at once leave no owner |
| OrgRuns.RoleMeans | internal/organization/service/member.go:95-135 | each refusal of a role change has exactly its cause; the last owner is one with no other beside them |
| OrgRuns.RemoveMeans | internal/organization/service/member.go:140-193 | each refusal of a removal has exactly its cause; a plain member removes nobody else |
| OrgRuns.UnassignMeans | internal/organization/service/roles.go:304-340 | an OWNER takes a defined custom role away, and only that row goes |
| OrgRuns.StampsStay | internal/organization/repository/org_repository.go:215-223 | a stamped invite keeps its stamps and never changes what it grants, under whole calls |
| OrgRuns.SpentOnce | internal/organization/service/invite.go:126-189 | one invite creates at most one membership in any run of whole calls |
| OrgRace.WholeIsCommit | internal/organization/service/member.go:44-193 | a call is its checks and then its write, on the same rows |
| OrgRace.CommitSafeIff | internal/organization/repository/org_repository.go:144-223 | a write whose checks were made earlier keeps the guarantees exactly when it leaves another OWNER, meets no opposite stamp, and issues beside no other open invite |
| OrgRace.RaceSafeIff | internal/organization/service/member.go:95-193 | over any interleaving of checks and writes: an OWNER in each organization, one open invite per address and no invite with both stamps, throughout, exactly when every write was harmless when it came |
| OrgRace.ExclusiveRunsAreSafe | internal/organization/service/invite.go:26-219 | safe when calls on one organization do not overlap, however calls on different organizations interleave |
| OrgRace.LastOwnersLost | internal/organization/service/org_service.go:358-367 | from an empty database: one owner leaves while the other demotes themselves, both past the guard; no OWNER is left |
| OrgRace.BothStamps | internal/organization/service/invite.go:126-219 | from an empty database: an invite accepted and declined at once carries both stamps |
| OrgRace.TakenOnceIff | internal/organization/service/invite.go:126-189 | over any interleaving: an invite is accepted at most once exactly when each acceptance finds it unaccepted when it is written |
| OrgRace.SpentTwice | internal/organization/service/invite.go:126-189 | from an empty database: two acceptances at once, the member removed between their writes, and the member is back |
| OrgIndex.EveryRunMirrors | internal/organization/service/org_service.go:412-431 | in every run of whole calls the groupings are exactly what memberships and custom roles of existing organizations call for |
| OrgIndex.RepairMirrorsIff | internal/organization/repository/org_repository.go:121-127 | a user sync keeps an exact index exact if and only if none of the user's organizations was deleted |
| OrgIndex.DeleteMirrors | internal/iam/policy.go:134-145 | dropping the domain's rows matches the organization's disappearance |
| OrgIndex.RemoveMirrors | internal/organization/service/member.go:164-192 | a removal takes the fixed row and every custom row of the member with it |
| OrgService.Registry.Require | internal/organization/service/org_service.go:331-340 | not found for outsiders and deleted organizations, forbidden below the floor |
| OrgService.Registry.GuardLastOwner | internal/organization/service/org_service.go:358-367 | passes exactly when two different owners exist |
| OrgService.Registry.Found | internal/organization/service/org_service.go:108-171 | the creator is OWNER, nobody's standing anywhere else changes, and the organization invariant is kept |
| OrgService.Registry.Dissolve | internal/organization/service/org_service.go:249-279 | an OWNER may, and then everyone is told the organization does not exist; every other organization answers as before; the invariant is kept |
| OrgService.Registry.Add | internal/organization/service/member.go:44-92 | accepted, one outsider becomes a member at a role not above the grantor's, the roster stays within the cap and nobody else's standing changes; the invariant is kept |
| OrgService.Registry.ChangeRole | internal/organization/service/member.go:95-135 | accepted exactly for an OWNER, a known role and a member who is not the last owner being demoted; nobody else's role changes |
| OrgService.Registry.Remove | internal/organization/service/member.go:140-193 | accepted exactly when anyone leaves, an ADMIN removes a non-owner or an OWNER anyone, the last owner excepted; membership and custom roles go together |
| OrgService.Registry.UnassignAll | internal/organization/service/member.go:170-178 | the loop removes exactly the member's custom roles in the organization |
| OrgService.Registry.Assign | internal/organization/service/roles.go:262-301 | a defined custom role for a member, from an OWNER: granting again changes nothing and unassigning restores the rows; the invariant is kept |
| OrgService.Registry.InviteByEmail | internal/organization/service/invite.go:26-74 | the token finds the new invite, now the only open one of its address, at a role not above the inviter's; other invites are untouched and the invariant is kept |
| OrgService.Registry.Revoke | internal/organization/service/invite.go:111-121 | a revoked invite's token never grants anything to anyone at any time; the invariant is kept |
| OrgService.Registry.Accept | internal/organization/service/invite.go:126-189 | the caller is a member and the stamp on, a membership only ever with its stamp and within the cap; a retry at any time answers the same and changes nothing; the invariant is kept |
| OrgService.Registry.Decline | internal/organization/service/invite.go:193-219 | a declined token never grants anything to anyone at any time; declining again is a no-op; the invariant is kept |
| EventCache.BoundedStaleness | internal/event/service/event_service.go:253-280 | under every interleaving and any cache failure, a payload served from the cache was the published one less than the TTL plus its read-to-store delay ago |
| EventCache.FreshAfterPurge | internal/event/service/event_service.go:935-942 | after a successful purge with no outdated reader in flight every read up to the next commit is current |
| EventCache.PurgeRestoresIff | internal/event/service/event_service.go:935-942 | a purge restores coherence exactly when no reader holds an outdated payload |
| EventCache.CoherentKept | internal/event/service/event_service.go:253-280 | only a commit that changes what is public can break coherence |
| EventCache.StoreAfterPurge | internal/event/service/event_service.go:71-73 | a store after the purge serves the old payload until exactly the TTL has passed |
| EventService.CachedEqualsUncached | internal/event/service/event_service.go:253-280 | calls one after the other: a cached read equals an uncached one after any sequence of mutations |
| EventService.PurgesSuffice | internal/event/service/event_service.go:931-942 | whatever can change an event's public payload purges that event, and leaves every other alone |
| EventService.MutateIsWriteThenPurge | internal/event/service/event_service.go:369-438 | an accepted mutation is one commit and one purge of the interleaved protocol; a refused one is nothing |
| EventService.GetIsARun | internal/event/service/event_service.go:253-280 | a read is look, load and store of the interleaved protocol |
| EventService.MutationsKeepTable | internal/event/service/event_service.go:369-823 | no mutation breaks the schema's checks, moves an event, or changes a deleted one |
| EventService.CreationKeepsTable | internal/event/service/event_service.go:157-227 | an admitted draft under a free slug keeps the schema's checks |
| EventService.EventDesk.CheckCreation | internal/event/service/event_service.go:157-190 | no refusal exactly when title, quota, dates, capacity and slug are all in order |
| EventService.StatusPaths | internal/event/service/event_service.go:487-579 | an accepted whole call changes status only along publish, unpublish and cancel; a cancelled event stays so |
| EventService.Life | internal/event/service/event_service.go:487-579 | publish from draft, unpublish and cancel from published, and refused from anywhere else; only status and time change |
| EventService.QuotaMeans | internal/event/repository/event_repository.go:84-93 | drafts and published events count against the quota; cancelling or deleting one frees exactly its place |
| EventRace.RaceSafeIff | internal/event/repository/event_repository.go:61-63 | over any interleaving of loads and whole-row saves, cancelled events stay cancelled and deleted ones deleted throughout exactly when no save lands on a deleted row, and every save onto a CANCELLED row comes from a copy already CANCELLED or cancels again |
| EventRace.ExclusiveRunsAreSerial | internal/event/service/event_service.go:369-823 | when calls on one event do not overlap, any run leaves what the same calls made whole leave, in the order of their transactions |
| EventRace.WholeIsMutate | internal/event/service/event_service.go:369-438 | a load and a save at once are the whole call |
| EventRace.RevivedByUnpublish | internal/event/service/event_service.go:541-579 | from an empty table: an unpublish loaded before a cancel turns the cancelled event into a draft |
| EventRace.UndeletedByUnpublish | internal/event/service/event_service.go:541-618 | from an empty table: an unpublish loaded before a deletion brings the event back |
| EventService.EventDesk.GetPublic | internal/event/service/event_service.go:253-280 | answers like the database while the cache is coherent, and keeps it so |
| EventService.EventDesk.EditRow | internal/event/service/event_service.go:369-421 | accepted exactly when title, slug, capacity and resulting dates are in order; each column takes the field of its own name; edits of disjoint fields compose to the joint edit; again changes nothing |
| EventService.EditsOneColumn | internal/event/service/event_service.go:383-421 | an edit giving one field changes that column and the time and nothing else, or is refused for that field |
| EventService.EditsCompose | internal/event/service/event_service.go:383-421 | edits of disjoint fields accepted one after the other are the joint edit, in either order |
| EventService.EventDesk.UpdateEvent | internal/event/service/event_service.go:369-438 | accepted exactly for an acceptable edit of a visible event under a slug no row of the organization has; row and returned detail take each field under its own name; nothing else moves |
| EventService.EventDesk.Transition | internal/event/service/event_service.go:547-579 | accepted exactly from the one allowed status; status and time change, nothing else, and the detail shows the row |
| EventService.EventDesk.DeleteEvent | internal/event/service/event_service.go:583-618 | the row disappears from public view and is purged |
| EventService.EventDesk.ReplaceCover | internal/event/service/event_service.go:789-823 | the cover replaced and purged, or nothing |
| EventService.EventDesk.AddGalleryImages | internal/event/service/event_service.go:632-702 | all uploads or none; the first becomes the cover, with a purge, exactly when there was none |
| EventService.EventDesk.CreateEvent | internal/event/service/event_service.go:157-227 | a draft with a valid slug no row of the organization has; an automatic first free candidate succeeds exactly when no deleted event holds it |
| RateLimit.FirstOfEachWindow | internal/ratelimit/limiter.go:44-58 | each window lets through exactly its first limit requests |
| RateLimit.RateBound | internal/ratelimit/limiter.go:44-58 | any interval of length T lets through at most limit * (ceil(T/window) + 1) |
| RateLimit.RetryIsHonest | internal/ratelimit/limiter.go:44-58 | the wait is at most the window, positive while the window lasts, and a request at that instant is let through |
| RateLimit.RedisAgrees | internal/ratelimit/limiter.go:72-101 | on the same millisecond timestamps the script decides like the memory store with the window cut to whole milliseconds |
| RateLimit.RedisRetryIsHonest | internal/ratelimit/limiter.go:66-101 | a request the script refuses is told to wait exactly until its window ends, when one is let through |
| RateLimit.MemoryStore.Allow | internal/ratelimit/limiter.go:44-58 | each key's bucket is the history of that key's requests alone |
| Spacing.AtMostCeil | internal/auth/service/auth_service.go:201-222 | at most ceil(T/d) instants d apart in an interval of length T |
| Spacing.AtMostPerWindow | internal/auth/service/auth_service.go:201-222 | at most n * ceil(T/d) instants in an interval of length T when any n + 1 consecutive ones span d |
| Refresh.EveryRunKeepsInv | internal/auth/service/auth_service.go:263-497 | in every run of whole calls a session has at most one unrevoked refresh row: one while it is not revoked, then none |
| Refresh.RotateKeepsIff | internal/auth/service/auth_service.go:380-388 | a rotation committed on earlier checks keeps that exactly when its old row is still unrevoked |
| Refresh.RefreshMeans | internal/auth/service/auth_service.go:341-396 | that on the rows: each refusal has exactly its cause, and a rotation touches its own row only |
| Refresh.AtMostOneSuccess | internal/auth/service/auth_service.go:341-396 | each raw token yields at most one successful refresh in any run of whole calls |
| Refresh.KillsSession | internal/auth/service/auth_service.go:350-354 | presenting a revoked token, logging out, or resetting the password ends the sessions concerned |
| Refresh.DeadForever | internal/auth/service/auth_service.go:341-407 | an ended session stays ended and every refresh on it fails, in every later run of whole calls |
| Refresh.ReuseKills | internal/auth/service/auth_service.go:341-354 | a token already rotated ends its session for good when presented again |
| Refresh.ResetRevokes | internal/auth/repository/auth_repository.go:143-186 | a reset revokes the user's sessions with all their rows and no others |
| Refresh.ResetMeans | internal/auth/service/auth_service.go:463-497 | a reset goes through exactly while its token is open and in time, and uses up the user's other open tokens and no others |
| Refresh.EveryRunOneReset | internal/auth/service/auth_service.go:428-497 | in every run of whole calls a user has at most one reset token not used up |
| Refresh.ResetOnce | internal/auth/service/auth_service.go:463-497 | after a reset, that token and every other of the user is refused as used, in every later run of whole calls |
| ResetRace.WholeIsBoth | internal/auth/service/auth_service.go:428-497 | a request is its invalidation and its insert, a reset its check and its transaction |
| ResetRace.RaceSafeIff | internal/auth/service/auth_service.go:443-457 | over any interleaving: at most one open reset token per user throughout exactly when every request finds, at its insert, no open token it had not seen |
| ResetRace.ResetsPerToken | internal/auth/service/auth_service.go:463-497 | with at most m resets in flight, under every interleaving, a token resets the password at most m times |
| ResetRace.TwoOpen | internal/auth/service/auth_service.go:428-459 | from an empty database: two requests at once leave two open tokens |
| ResetRace.TwoResets | internal/auth/service/auth_service.go:463-497 | from an empty database: two resets at once both use one token |
| RefreshRace.RaceSafeIff | internal/auth/service/auth_service.go:341-396 | with rotations and reuse responses each in two steps, over any interleaving: one unrevoked row per unrevoked session and none in an ended one, but while its rows' statement is still to come, throughout exactly when every rotation found its row unrevoked or its session being ended without an unrevoked row |
| RefreshRace.FamiliesIsInv | internal/auth/service/auth_service.go:350-354 | with no session being ended that is the invariant of whole calls |
| RefreshRace.WholeIsBoth | internal/auth/service/auth_service.go:341-396 | a refresh's two steps in a row are the whole call |
| RefreshRace.OneTokenTwice | internal/auth/service/auth_service.go:341-396 | two refreshes with one token at once both succeed and leave two unrevoked rows |
| RefreshRace.OneTokenTwiceReached | internal/auth/service/auth_service.go:263-396 | the same from an empty database, through a sign-in |
| Otp.OnePendingCode | internal/auth/repository/auth_repository.go:320-348 | in every run of whole calls: at most one pending code, at most five wrong guesses per code, issues at least 60 seconds apart |
| Otp.GuessBound | internal/auth/service/auth_service.go:158-257 | in every run of whole calls any interval of T evaluates at most 5 * (floor(T/60s) + 2) wrong codes of one account |
| Otp.CodeVerifiesIff | internal/auth/service/auth_service.go:158-198 | a whole call verifies exactly when it is the newest code, unconsumed, in time, with tries left; then every code and link is used up |
| Otp.NewAccountLife | internal/auth/service/auth_service.go:65-257 | a new account's code verifies for ten minutes, its link for a day, and no other is sent for a minute |
| Otp.FifthIsLast | internal/auth/service/auth_service.go:176-186 | exactly the fifth wrong guess at a code answers that the tries are used up |
| Otp.VerifiedIsFinal | internal/auth/service/auth_service.go:158-257 | under whole calls a verified account stays verified and takes no further guess or code |
| Otp.PaidByIssues | internal/auth/service/auth_service.go:158-198 | in every run of whole calls wrong guesses in an interval are covered by the codes issued in it and one from before |
| OtpRace.TriesPerCode | internal/auth/service/auth_service.go:168-183 | with at most m guesses in flight, under every interleaving, a code is compared with at most 5 + (m - 1) wrong guesses |
| OtpRace.TwoAtOnce | internal/auth/service/auth_service.go:168-183 | that bound is met: after four counted tries, two guesses at once make six |
| OtpRace.PendingAtMost | internal/auth/service/auth_service.go:231-249 | with at most n resends in flight at most n codes are pending |
| OtpBound.IssuesSpread | internal/auth/service/auth_service.go:212-216 | with at most n resends in flight any n + 1 consecutive issues span at least 60 seconds |
| OtpBound.GuessBoundInFlight | internal/auth/service/auth_service.go:158-257 | with at most m guesses and n resends in flight, any interval of T compares at most (5 + m - 1) * (n * ceil(T/60s) + 1) wrong codes of one account |
| AuthService.AuthDesk.SignIn | internal/auth/service/auth_service.go:263-337 | accepted exactly for an active account with good credentials; the returned token refreshes at an instant exactly when it is within the configured lifetime; the families stay right |
| AuthService.AuthDesk.RefreshToken | internal/auth/service/auth_service.go:341-396 | accepted exactly for an unrevoked row in time, of an unrevoked session in time, of an active account; the new token then refreshes exactly as long as its own lifetime and the session's; the families stay right |
| AuthService.AuthDesk.SignOut | internal/auth/service/auth_service.go:399-407 | the session and all its rows end |
| AuthService.AuthDesk.Forgot | internal/auth/service/auth_service.go:428-459 | the new token resets exactly until its deadline and the user's earlier ones are used up; one open reset per user is kept |
| AuthService.AuthDesk.Reset | internal/auth/service/auth_service.go:463-497 | every session of the account ends |
| AuthService.Verifier.Register | internal/auth/service/auth_service.go:65-124 | the account's history starts with one code and one link |
| AuthService.Verifier.TryCode | internal/auth/service/auth_service.go:158-198 | verifies exactly when it returns Ok; the pending code's counter grows by one exactly on a wrong guess, no other counter moves, none passes five, and no stamp is taken back |
| AuthService.Verifier.VerifyByCode | internal/auth/service/auth_service.go:158-198 | the account is what its events so far make of it |
| AuthService.Verifier.VerifyEmail | internal/auth/service/auth_service.go:128-152 | the emailed link, once and until its deadline; the account is what its events so far make of it |
| AuthService.Verifier.ResendVerification | internal/auth/service/auth_service.go:201-257 | throttled; otherwise earlier codes and links are used up by fresh ones |

## Left out

- HTTP handlers, routing, DTO mapping, mail, background workers, file storage, configuration: no logic of the kind proved here.
- Audit entries and queued mails: they commit with the transaction and are read by nothing modelled.
- Listing, pagination, search, role-definition editing: easy members only.
- Failing databases: a transaction either happens whole or not at all; repository errors other than not-found and unique violations do not occur.
- Overlap of calls not named in the introduction (slug probes, organization creation and deletion, custom roles, member and plan caps and roster counts read before a transaction, sign-ins, user syncs and reseeds): such calls are whole. Edits and deletions of kits read under the kit's row lock.
- DoorRace.RaceSafeIff: a Collect's transaction, a revert's flip and a row save are each indivisible; the audit row of a correction is not part of it.
- OrgRace.RaceSafeIff: an invite's supersession and insert, and a membership and its stamp, are each one step; the open invite to supersede is looked up with the checks, since nothing locks it in the transaction either; accounts and plan caps are read at the checks.
- OtpBound.GuessBoundInFlight: the two reads of a guess (account and pending code) are one instant, a settled guess is one transaction, and a resend's inserts and commit are one instant after its updates.
- RefreshRace.RaceSafeIff: a refresh's reads are one instant, and the transactions of a logout, a reset and a sign-in are one step each.
- EventRace.RaceSafeIff: GORM is not part of this model; its Save is taken to insert the row again, undeleted, when its update matches none, as for ticket types in `OrderRace`.
- OrderRace.RaceSafeIff: event capacity, sale windows, names and currencies of ticket types; a refused save or claim is one that a unique key refuses.
- ResetRace.RaceSafeIff: a request's inserts and its invalidation become visible together; credentials, and the sessions a reset ends, are as in `Refresh`.
- OrderService.OrderDesk.Create: a free order's attendees are minted in the same transaction in the source; here minting is a call of its own.
- IamReseed.RepairedMatchesTables: groupings that chain through another role and blank enforcement inputs.
- OrgRuns.SpentOnce: whole calls only; `OrgRace.TakenOnceIff` is the condition for overlapping ones.
- Refresh.EveryRunOneReset: whole calls only; `ResetRace.RaceSafeIff` is the condition for overlapping ones.
- Refresh.ResetOnce: whole calls only; `ResetRace.ResetsPerToken` is the bound for overlapping ones.
- Otp.OnePendingCode: whole calls only; `OtpRace` says what overlapping ones do.
- Otp.GuessBound: whole calls only; `OtpBound.GuessBoundInFlight` is the bound for overlapping ones.
- Orders.CreateOrder: reads the ticket type and reserves in one step; `OrderRace` splits the two.
- Orders.Claim: sale windows, publication and the roster cap reach CreateOrder as facts of the catalogue.
- OrderSweep.DrainedIff: the sweeps fall in an interval in which no further hold falls due.
- Door.CreateKit: kit names and descriptions.
- RateLimit.RateBound: timestamps of one key ascend; the memory store reads its clock before it takes its lock.
- RateLimit.RedisAgrees: a key is gone once its TTL has elapsed; Redis's own handling of the exact millisecond of expiry, and malformed replies, are not modelled.
- RateLimit.RetryIsHonest: the clock is read again for the wait, so a wait computed after the window has passed is not positive.
- IamService.Enforcer.ListCustomRolePolicies: rows with an empty role, which Casbin's filters treat as a wildcard.
- Iam.Allowed: groupings that chain through another role, and Casbin's own depth limit.
- Iam.Uuids: the parser is assumed to refuse anything that ends in an @ and a printed UUID, as its fixed lengths and hexadecimal digits do.
- OrgIndex.EveryRunMirrors: every synchronisation succeeds; the service logs a failed one and carries on.
- OrgService.Registry.Found: organization names and slugs, and the attempts at a free slug, which share the event service's soft-delete problem.
- EventService.EventDesk.UpdateEvent: the event is found by id within its organization, not by slug.
- EventCache.World: event rows deleted by other domains reach the cache as plain commits without a purge.
- AuthService.AuthDesk.SignIn: password hashing, login attempts and access tokens.
- AuthService.Verifier.VerifyEmail: the account is the owner of the link; the welcome mail is not modelled.
- Refresh.AtMostOneSuccess: drawn tokens are new; their hash is uninterpreted.
