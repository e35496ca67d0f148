# CLINK offers plugin: verification model

The plugin lets an Electrum wallet answer Nostr payment requests with Lightning invoices. This
project models the parts of it that decide something - the ledgers, the codecs, the resolution of a
request and the upkeep of relay connections - and proves what they keep over all inputs and all runs.

Code that updates state in place is a class here too. Each of its methods is proved equal to a step of
a specification over values, and the properties are then proved of that specification, over every
sequence of steps. Coroutines are cut at their awaits, and the pieces may interleave in any order.

| file | what it models |
|---|---|
| `Receipts.dfy`, `ReceiptRuns.dfy` | the receipt registry, and what every run of it keeps |
| `Delivery.dfy`, `Schedules.dfy`, `Addressees.dfy`, `LateSends.dfy`, `Retries.dfy` | deliveries, sleeping re-broadcasts, the hourly tick and restarts around the registry; when, to whom and how often a receipt is sent, and how its retries end |
| `Server.dfy`, `ServerRuns.dfy`, `ServerLimits.dfy`, `SelfTest.dfy`, `ClinkServer.dfy` | a request from dispatch to invoice across wallet, reservations, dev-fee map and registry |
| `ReplayGuard.dfy` | the freshness window and the seen-cache |
| `Liquidity.dfy`, `Capacity.dfy` | liquidity reservations, and what each of them takes |
| `DevFee.dfy`, `Payouts.dfy` | the dev-fee ledger, and its payouts among concurrent accruals |
| `Padding.dfy`, `Nip44.dfy` | NIP-44 version 2: padding, key expansion, framing |
| `Noffer.dfy`, `NofferCode.dfy`, `Hex.dfy` | TLV records and the noffer string |
| `Decimal.dfy`, `Protocol.dfy` | rounding of the advertised maximum, and the answer to a request |
| `Offers.dfy`, `OfferStore.dfy`, `Text.dfy` | offers, the relays they advertise, and the stored collection |
| `Transport.dfy` | which relay connections the listener holds |
| `PyDict.dfy`, `Bytes.dfy`, `Wrappers.dfy` | Python's ordered dict and stable sort, byte strings, option and result types |

How it stands for the program:

- A time is a real number, except where the code truncates it. Every clock reading a method takes is an
  argument of its own. A theorem that needs a clock that never runs backwards says so.
- Payment hashes, public keys and event ids are 32-byte values read as numbers. Payment hashes are fresh.
- Money is whole sats or millisats. The fee share of a payment goes through exact rationals and a floor.
- Cipher, MAC, base64, UTF-8, bech32, URL normalisation, the wallet, its capacity, and whether a connect
  or a publish succeeds are parameters. They are used only through the laws that are stated for them.

Where the code and what is written about it differ:

- `README.md` of the plugin says that a receipt is sent seven times and then done. That holds exactly if
  the seventh recorded send was the only delivery of that receipt lined up, in flight, spawned or in the
  tick's list (`LateSends.SeventhSendIsLast`). Otherwise each of the others may still reach the relay, and
  no more than those (`LateSends.SendsInAll`). Since every settlement signal lines up one more delivery,
  there is a run that sends one receipt any number of times (`LateSends.AnyNumberOfSends`).
- `noffer_decode` documents ValueError for malformed codes. It raises IndexError exactly for a code that
  would decode with a price type but whose first record of one is empty, and no other exception
  (`NofferCode.IndexErrorExactly`). Every offer gives such a code when its price type record is emptied
  (`NofferCode.EmptyPriceTypeRaisesIndexError`).
- A dropped registry entry is meant not to orphan its wallet request. The step that hands a request over
  leaves it there exactly if it is neither unpaid nor expired just then, or the wallet raises
  (`ServerRuns.HandOverExactly`), and no later step collects it (`ServerRuns.SparedStaysForGood`): an
  unpaid request has lost its entry exactly if it was left there (`ServerRuns.UnpaidRequestsAreTracked`).
  A run from the start ends that way (`ServerRuns.OrphanFromTheStart`).
- `quantize_available_sat` promises that any amount up to the advertised maximum is accepted. That is so
  exactly below an availability of 22 million bitcoin (`Protocol.AdvertisedMaximumIsHonoured`); there the
  maximum cannot be named any more (`Protocol.OverpromisedIsRefused`). No wallet can receive that much,
  since it exceeds the supply, so every wallet keeps the promise.

## Model

| member | source | states |
|---|---|---|
| Receipts.ReceiptRegistry.Remember | clink/receipts.py:123-147 | adds the un-owed entry, then cuts the map back to the cap; returns what it cut |
| Receipts.ReceiptRegistry.EnforceCap | clink/receipts.py:314-328 | removes the soonest-expiring un-owed entries, as many as the map is over the cap |
| Receipts.ReceiptRegistry.Forget | clink/receipts.py:149-153 | removes one entry, if it is there |
| Receipts.ReceiptRegistry.MarkDue | clink/receipts.py:155-170 | the first signal stamps the payment time; every signal returns the target again |
| Receipts.ReceiptRegistry.RecordSend | clink/receipts.py:172-204 | counts a send whether or not the entry is due; the seventh removes it; returns the delay to the next |
| Receipts.ReceiptRegistry.RecordAttempt | clink/receipts.py:236-244 | counts and stamps an attempt on an entry that exists |
| Receipts.ReceiptRegistry.DueTargets | clink/receipts.py:248-278 | sweeps a copy, stores nothing, and lists the ripe owed receipts in order |
| Receipts.ReceiptRegistry.Sweep | clink/receipts.py:282-294 | drops abandoned and expired entries; returns the expired unpaid ones in order |
| Receipts.ReceiptRegistry.SweepLoop | clink/receipts.py:296-312 | the loop behind both sweeps keeps exactly what neither rule drops |
| Receipts.ReceiptRegistry.PendingCountFor | clink/receipts.py:335-348 | counts the payer's un-owed entries that have not expired |
| ReceiptRuns.EvictedByRank | clink/receipts.py:314-328 | an entry is evicted exactly if it is un-owed and fewer un-owed ones sort before it than the map is over the cap |
| ReceiptRuns.CapKeepsOwed | clink/receipts.py:314-328 | the cap removes no owed receipt and changes none it keeps |
| ReceiptRuns.CapEvictsSoonestToExpire | clink/receipts.py:314-328 | every evicted entry expires no later than every kept un-owed one |
| ReceiptRuns.CapBoundsSize | clink/receipts.py:314-328 | after a cut the map holds MAX_PENDING entries, or owed ones alone |
| ReceiptRuns.RememberEvictsItself | clink/receipts.py:123-147 | exactly when `remember` evicts the entry it has just inserted |
| ReceiptRuns.ReachableIsBounded | clink/receipts.py:123-328 | in every reachable state at most six sends are stored per receipt and the size bound holds |
| ReceiptRuns.OwedExactlyUntil | clink/receipts.py:172-204 | over any run a due receipt is owed exactly until its seventh recorded send or a sweep ten days after payment |
| ReceiptRuns.PaidReceiptStaysOwed | clink/receipts.py:155-204 | from the settlement signal on, a receipt is owed through any run with at most six sends and no clock past ten days |
| ReceiptRuns.TargetsDueExactly | clink/receipts.py:248-278 | exactly the owed, not abandoned receipts whose throttle has elapsed are listed, each once |
| ReceiptRuns.TickPicksUpOwed | clink/receipts.py:248-278 | a tick an hour after the last attempt and past the last offset lists every owed receipt |
| ReceiptRuns.SweepDropsExactly | clink/receipts.py:282-312 | a sweep keeps an owed entry for ten days from the payment and an un-owed one until its invoice expires, and returns exactly the un-owed ones it drops |
| ReceiptRuns.AttemptThrottles | clink/receipts.py:236-278 | an attempt at a receipt that was never sent keeps it off the list for exactly an hour, whatever else happens |
| ReceiptRuns.LateSendShiftsNothing | clink/receipts.py:194-204 | each wake-up is the first send plus its offset, or at once; a late send moves none |
| ReceiptRuns.RestartResumesSchedule | clink/receipts.py:203-278 | after a restart a mid-schedule receipt is listed exactly from the moment the in-session delay would have elapsed |
| ReceiptRuns.AtMostElevenFastRetries | clink/receipts.py:211-234 | a streak of failed publishes, each after the backoff before it, gets at most eleven fast retries |
| ReceiptRuns.ElevenFastRetriesHappen | clink/receipts.py:211-234 | and eleven are reached |
| Delivery.RuntimeRefinesRegistry | clink/clink_plugin.py:972-1079 | every interleaving of the coroutines acts on the registry as one sequence of its operations |
| Schedules.FiveMinutesOfSends | clink/clink_plugin.py:972-1108 | one settlement signal, with every tail on time, every publish accepted and no tick, sends the receipt at once and 10, 15, 30, 60, 120 and 300 seconds later, and leaves nothing of it behind |
| Schedules.ElevenRetriesThenTick | clink/clink_plugin.py:972-1055 | with every publish failing the signal is followed by eleven retries, each after its backoff, and the receipt, still owed, is left to the hourly tick |
| Schedules.AcceptedSchedulesNext | clink/clink_plugin.py:1013-1037 | an accepted publish of a receipt sent fewer than six times puts exactly one tail to sleep, for its addressee, until the next offset after the first send or for no time |
| Schedules.FailedSchedulesRetry | clink/clink_plugin.py:999-1012 | a failed publish puts one retry to sleep, 5 to 80 seconds by its streak, up to ten minutes after the first send, or the payment when nothing was sent; later it schedules nothing |
| Schedules.WokenTailPublishes | clink/clink_plugin.py:1039-1055 | a tail whose sleep is over frees its guard, and starts its publish exactly if the receipt is still owed |
| Schedules.SignalSpawns | clink/clink_plugin.py:1082-1098 | a settlement signal marks a remembered receipt due from the first signal on and spawns one delivery; for any other hash it changes nothing |
| Schedules.BegunPublishes | clink/clink_plugin.py:972-998 | a spawned delivery stamps its attempt and starts its publish while there is a manager |
| Schedules.QueuedPublishes | clink/clink_plugin.py:1071-1079 | the tick's loop attempts its next target and starts its publish while there is a manager |
| Schedules.TickQueuesDue | clink/clink_plugin.py:1057-1072 | a tick queues exactly the receipts that are owed, less than ten days paid, and ripe |
| Addressees.TargetsNameTheirPayer | clink/receipts.py:111-170 | after any run that leaves a hash alone, `mark_due` and `due_targets` name the payer and the request it was remembered with, and the progress of the entry |
| Addressees.DeliveriesAreAddressed | clink/clink_plugin.py:972-1108 | in every run from the start each spawned, in-flight, sleeping or queued delivery has the payer and the request that its hash was issued with |
| Delivery.InterleavingsAreBounded | clink/clink_plugin.py:972-1079 | no interleaving stores more than six sends or breaks the size bound |
| Delivery.TailsNeverStack | clink/clink_plugin.py:1029-1055 | at most one sleeping re-broadcast per receipt, also after a tail cancelled before its first step |
| Delivery.GoneCompletion | clink/clink_plugin.py:972-1027 | completing a delivery of a receipt that has left the registry changes nothing and schedules nothing |
| Delivery.GoneForGood | clink/clink_plugin.py:972-1079 | a receipt that left stays out, and only publishes already lined up are made |
| Delivery.SeventhSendCompletes | clink/receipts.py:172-204 | the seventh recorded send removes the receipt, schedules nothing further, and no more publishes begin than were spawned or listed |
| Delivery.PublishesExceedSchedule | clink/clink_plugin.py:1082-1098 | n settlement signals start n publishes: the bound is on recorded sends only |
| LateSends.SendsCounted | clink/receipts.py:172-204 | while the registry holds a due receipt, its accepted publishes are the sends counted there, six at most |
| LateSends.AtMostLinedUp | clink/clink_plugin.py:972-1079 | once it has left, no run has more accepted publishes of it than were lined up |
| LateSends.AllLinedUpHappen | clink/clink_plugin.py:972-1079 | and some run has exactly so many |
| LateSends.SeventhSendIsLast | clink/receipts.py:172-204 | nothing is sent after the seventh recorded send, exactly if that was the only delivery lined up |
| LateSends.SendsInAll | clink/clink_plugin.py:972-1079 | from the payment on a receipt is sent seven times and once more for each delivery then lined up, at most and in some run exactly |
| LateSends.AnyNumberOfSends | clink/clink_plugin.py:1082-1098 | for every n, a run from the start issues one invoice and sends its receipt n times |
| Retries.RetryChainsEnd | clink/clink_plugin.py:999-1055 | while no publish of a due receipt is accepted, no chain of failures in any interleaving schedules a twelfth fast retry |
| Retries.CancelLeaks | clink/clink_plugin.py:1036-1052 | a tail cancelled before its first step leaves its guard behind |
| Retries.LeakedGuardLasts | clink/clink_plugin.py:1029-1055 | such a guard keeps its receipt from sleeping for another send until a restart |
| Retries.DeliveriesWereDue | clink/clink_plugin.py:972-1079 | every delivery of every run is for a receipt that was owed at some point of it |
| Delivery.ReceiptRuntime.ScheduleRebroadcast | clink/clink_plugin.py:1029-1037 | spawns one tail unless one is there or no session is |
| Delivery.ReceiptRuntime.BeginDelivery | clink/clink_plugin.py:972-998 | the attempt is stamped before the publish is awaited |
| Delivery.ReceiptRuntime.OnRequestPaid | clink/clink_plugin.py:1092-1098 | marks the receipt due and spawns its delivery |
| Delivery.ReceiptRuntime.OnPublished | clink/clink_plugin.py:1013-1027 | records the send and schedules the next |
| Delivery.ReceiptRuntime.OnPublishFailed | clink/clink_plugin.py:999-1012 | schedules a fast retry with a longer streak, while the window is open |
| Delivery.ReceiptRuntime.OnTailAwake | clink/clink_plugin.py:1039-1055 | frees the guard and delivers only what is still owed |
| Delivery.ReceiptRuntime.RedeliverTick | clink/clink_plugin.py:1057-1072 | sweeps, and takes the snapshot of targets the loop will walk |
| Delivery.ReceiptRuntime.DeliverNextQueued | clink/clink_plugin.py:1071-1072 | delivers the next of the snapshot without asking whether it is still owed |
| Server.RefusedOrAdmitted | clink/clink_plugin.py:824-849 | a request is admitted, for the amount it names, exactly for an active spontaneous offer, an amount available, and a self-test or a payer with fewer than 200 live unpaid invoices; each refusal has the code of the first check that fails, and the cap alone is refused as temporary |
| ServerRuns.RunKeepsSound | clink/clink_plugin.py:859-968 | every run keeps the invariant that ties wallet, reservations, dev-fee map and registry together |
| ServerRuns.PaidRequestsAreKept | clink/clink_plugin.py:952-968 | garbage collection never deletes a paid request, also when the paid signal was missed |
| ServerRuns.PaidDisappearsOtherwise | clink/clink_plugin.py:952-968 | only the user, or the unwinding of a self-test or a lost race, can remove a paid request |
| ServerRuns.UnpaidRequestsAreTracked | clink/clink_plugin.py:889-968 | an unpaid request of a completed issue has no registry entry exactly if its collection left it there |
| ServerRuns.HandOverExactly | clink/clink_plugin.py:952-968 | a hand-over, by sweep or size cap, keeps a request exactly if its payment is in flight or it is paid, or the wallet raises |
| ServerRuns.ExpiredIsCollected | clink/clink_plugin.py:859-968 | a run from the start in which an unpaid invoice expires: after the sweep neither its entry nor its request is left |
| ServerRuns.SparedStaysForGood | clink/clink_plugin.py:952-968 | a request that was left there is never collected later |
| ServerRuns.InFlightAtExpiryIsLeftBehind | clink/clink_plugin.py:1067-1070 | a payment in flight at expiry that fails later leaves its request behind unpaid |
| ServerRuns.OrphanFromTheStart | clink/clink_plugin.py:859-968 | a run from the start issues an invoice and orphans its request |
| ServerRuns.InvoiceIssued | clink/clink_plugin.py:783-904 | what an admitted request comes to: an unpaid wallet request, the amount locked until the invoice expires, and an entry that awaits its payment for that payer and request, no less long |
| ServerRuns.PaidSignalEffect | clink/clink_plugin.py:1082-1108 | a paid signal releases the liquidity, takes the hash for the fee and makes the entry due from the first signal on; no other hash is touched |
| ServerRuns.SelftestLastsTwoMinutes | clink/clink_plugin.py:393-410 | a registered identity counts as a self-test for exactly two minutes, through whatever else happens, unless it is forgotten or registered again |
| ServerLimits.PayerLimitHolds | clink/clink_plugin.py:835-843 | in every reachable state no set of live unpaid invoices of one payer has more than 200 members |
| ServerLimits.LiquidityIsAccountedFor | clink/clink_plugin.py:882-903 | live liquidity is locked only for an invoice the registry awaits at least as long, the request in progress, or one evicted or broken off |
| SelfTest.SelfTestLeavesNoTrace | clink/clink_plugin.py:905-915 | a completed self-test, whatever ran beside it, leaves registry, dev-fee map, wallet and live reservations as the rest alone would |
| RequestServer.ClinkServer.RegisterSelftestPayer | clink/clink_plugin.py:393-400 | an identity lasts two minutes |
| RequestServer.ClinkServer.UnregisterSelftestPayer | clink/clink_plugin.py:402-403 | and is forgotten on request |
| RequestServer.ClinkServer.IsSelftestPayer | clink/clink_plugin.py:405-410 | forgets lapsed identities, and answers for the given one |
| RequestServer.ClinkServer.DispatchRequest | clink/clink_plugin.py:824-849 | refuses with the code of the check that failed, or admits the request; three readings of the clock |
| RequestServer.ClinkServer.CreateWalletRequest | clink/clink_plugin.py:867-870 | one new unpaid request in the wallet |
| RequestServer.ClinkServer.LockLiquidity | clink/clink_plugin.py:882-894 | locks the amount, or deletes the request when the race is lost |
| RequestServer.ClinkServer.RecordInvoice | clink/clink_plugin.py:896-904 | enters both ledgers and collects what the cap evicted |
| RequestServer.ClinkServer.UnwindSelfTest | clink/clink_plugin.py:908-913 | gives liquidity and request back |
| RequestServer.ClinkServer.DeleteStaleRequests | clink/clink_plugin.py:952-968 | deletes exactly the unpaid and expired ones among the given requests for which the wallet does not raise, spelled on statuses |
| RequestServer.ClinkServer.OnRequestPaid | clink/clink_plugin.py:1082-1108 | releases the liquidity, marks the receipt due, takes the hash for the dev fee |
| RequestServer.ClinkServer.SweepTick | clink/clink_plugin.py:1067-1070 | sweeps the registry and deletes every unpaid or expired request of what it swept, unless the wallet raises |
| ReplayGuard.SeenCache.AlreadySeen | clink/clink_plugin.py:775-781 | remembers a new id and forgets the oldest beyond the bound |
| ReplayGuard.SeenCache.Accept | clink/clink_plugin.py:783-822 | a request is answered exactly if it is admitted and not remembered; only admitted ones are remembered |
| ReplayGuard.AdmittedExactly | clink/clink_plugin.py:783-822 | who gets to the guard: a readable request of another key, not expired, dated within a minute of now either way, and no ping |
| ReplayGuard.CacheIsRecentPasses | clink/clink_plugin.py:775-781 | the cache always holds the last SEEN_EVENTS_MAX requests that passed |
| ReplayGuard.PassesAgainIffFlooded | clink/clink_plugin.py:775-822 | an admitted event passes again exactly when SEEN_EVENTS_MAX others passed since |
| ReplayGuard.NoRequestAnsweredTwice | clink/clink_plugin.py:775-822 | with at most SEEN_EVENTS_MAX passes in any 120 seconds, no event passes twice in a session |
| ReplayGuard.FloodReopensReplay | clink/clink_plugin.py:775-822 | with more in one second, the first passes twice |
| Liquidity.LiquidityReserver.Sweep | clink/liquidity.py:56-60 | drops exactly the expired reservations |
| Liquidity.LiquidityReserver.ReservedSat | clink/liquidity.py:62-65 | the sum of the live reservations |
| Liquidity.LiquidityReserver.AvailableSat | clink/liquidity.py:67-72 | capacity less that sum, never below zero |
| Liquidity.LiquidityReserver.TryReserve | clink/liquidity.py:74-83 | succeeds exactly if the positive amount is available at the second clock reading |
| Liquidity.LiquidityReserver.Release | clink/liquidity.py:85-88 | removes one reservation |
| Liquidity.LiveContentIsHistory | clink/liquidity.py:56-93 | whenever it was swept, the live content is the last unreleased, unexpired successful reservation of each key |
| Liquidity.NeverOvercommitted | clink/liquidity.py:74-83 | after every success, also one that overwrites a key, the live sum is at most the capacity read in that call |
| Capacity.HistoryNeverOvercommitted | clink/liquidity.py:56-93 | after every success the amounts that the history of calls leaves live sum to at most the capacity that call read, then and later |
| Capacity.ReserveTakesAmount | clink/liquidity.py:67-83 | a successful reservation of a key that is not live takes exactly its amount from what is available, and that was there |
| Capacity.ReleaseFreesAmount | clink/liquidity.py:67-88 | releasing a live key frees exactly its amount, releasing any other nothing |
| Capacity.ExpiryFreesAmount | clink/liquidity.py:56-72 | letting a key expire frees exactly its amount |
| Capacity.NothingLive | clink/liquidity.py:67-72 | with nothing live all of the capacity is available |
| DevFee.DevFeeLedger.Accrue | clink/devfee.py:95-111 | adds the floored share, or nothing |
| DevFee.DevFeeLedger.MarkIssued | clink/devfee.py:123-130 | stamps the hash and evicts the oldest beyond the bound |
| DevFee.DevFeeLedger.TakeIssued | clink/devfee.py:132-139 | takes a hash once |
| DevFee.DevFeeLedger.PaymentsWindow | clink/devfee.py:143-151 | returns the day's payments and prunes the stored list to them |
| DevFee.DevFeeLedger.PayableSat | clink/devfee.py:153-161 | the lesser of what is owed and what the day leaves |
| DevFee.DevFeeLedger.ShouldAttemptNow | clink/devfee.py:163-179 | whether a payout is due; the list is pruned only when the cap was looked at |
| DevFee.DevFeeLedger.RecordSuccess | clink/devfee.py:183-189 | debits, appends to the pruned list, stamps |
| DevFee.DevFeeLedger.RecordFailure | clink/devfee.py:191-193 | stamps the attempt |
| DevFee.NewestIsRemembered | clink/devfee.py:123-130 | the map keeps its bound and never forgets the hash just issued |
| DevFee.OldestGoFirst | clink/devfee.py:123-130 | what is evicted was stamped no later than anything that is kept |
| DevFee.FeeExactly | clink/devfee.py:95-111 | the fee is the given percentage of the payment in msat, rounded down, and nothing when it is off or either is not positive |
| DevFee.PayableExactly | clink/devfee.py:153-161 | the payable amount is the greatest that is owed and leaves the day within 10000 sats |
| DevFee.AttemptDueExactly | clink/devfee.py:163-179 | a payout is due exactly with the fee on, 1000 sats payable, and a day since the last attempt unless that is waived |
| Payouts.PendingStaysBounded | clink/devfee.py:123-139 | in every run the map of issued hashes keeps its bound and holds no stamp from the future |
| Payouts.FeesAreConserved | clink/clink_plugin.py:1145-1197 | accrued plus 1000 times all payouts equals all fees ever accrued, and a fixed amount stays covered until it is debited |
| Payouts.FeesMatchPayments | clink/devfee.py:95-139 | in every run the fees are the percentage of the credited payments, short of it by less than one msat a payment |
| Payouts.DailyCapHolds | clink/devfee.py:143-189 | in every run the payouts of any one day sum to at most DAILY_CAP_SAT |
| Payouts.OneAttemptADay | clink/clink_plugin.py:1145-1197 | for a day after a stamped attempt no other is made, unless it is forced |
| Payouts.PayoutPaysAllItMay | clink/clink_plugin.py:1145-1197 | a payout that goes through pays the greatest amount that is owed, fits the day and the receiver takes, and debits exactly that |
| Payouts.BeginsExactly | clink/clink_plugin.py:1145-1161 | a payout begins exactly with the fee on, a destination, 1000 sats payable, and a day since the last attempt unless that is waived; beginning pays and stamps nothing |
| Payouts.AttemptStamps | clink/clink_plugin.py:1162-1197 | every way an attempt ends is stamped, except a range of the receiver that does not fit |
| Payouts.EachHashCreditedOnce | clink/devfee.py:123-139 | an issued hash is credited at most once, any other never |
| Payouts.PayoutRuntime.BeginPayout | clink/clink_plugin.py:1151-1161 | fixes the amount before the awaits, or leaves |
| Payouts.PayoutRuntime.OnResolved | clink/clink_plugin.py:1162-1170 | the amount is cut to what the receiver takes, or the payout dropped |
| Payouts.PayoutRuntime.OnPrepareFailed | clink/clink_plugin.py:1170-1173 | stamps the attempt and pays nothing |
| Payouts.PayoutRuntime.OnPaymentFailed | clink/clink_plugin.py:1175-1190 | stamps the attempt and debits nothing |
| Payouts.PayoutRuntime.OnInvoicePaid | clink/clink_plugin.py:1099-1106 | accrues for a hash that was issued, once |
| Payouts.PayoutRuntime.OnPaymentCleared | clink/clink_plugin.py:1192-1197 | debits the amount that was fixed |
| Padding.NextPowerIsLeast | clink/nip44.py:73-78 | the bit-length expression is the least power of two not below n |
| Padding.PaddedLenIsLeastMultiple | clink/nip44.py:73-78 | the padded length is at least n and 32, and the least multiple of its chunk that holds n |
| Padding.PaddedLenMonotone | clink/nip44.py:73-78 | longer texts are padded to no less |
| Padding.PaddedLenIdempotent | clink/nip44.py:73-78 | a padded length is padded to itself |
| Padding.PaddedLenOverhead | clink/nip44.py:73-78 | above 256 bytes padding adds less than a quarter |
| Padding.ChunkExactly | clink/nip44.py:73-78 | the chunk is 32 up to 256 bytes, and above that an eighth of the power of two that holds the length and is below its double |
| Nip44.HkdfExpand | clink/nip44.py:53-61 | HKDF-Expand as in section 2.3 of RFC 5869, with exactly the requested length |
| Nip44.MessageKeysAre | clink/nip44.py:64-68 | which octets of the expansion are the cipher key, the cipher nonce and the MAC key |
| Nip44.UnpadAcceptsExactly | clink/nip44.py:90-99 | `_unpad` accepts exactly the padded forms of a text |
| Nip44.PadRoundTrip | clink/nip44.py:81-99 | `_pad` refuses exactly the other lengths, and `_unpad` undoes it |
| Nip44.PadLayout | clink/nip44.py:81-87 | the padded form is two octets of length, highest first, the text, and zeros up to the padded length |
| Nip44.SealedOpens | clink/nip44.py:121-136 | a sealed block opens exactly if its padding and text are good; the 99-byte minimum loses nothing |
| Nip44.OpensOnlySealed | clink/nip44.py:121-136 | whatever opens is byte for byte what sealing would produce |
| Nip44.LawsCanBeMet | clink/nip44.py:30-136 | the laws asked of the primitives are consistent |
| Nip44.EncryptRoundTrip | clink/nip44.py:110-136 | decrypting an encryption gives the text back, for every text of 1 to 65535 bytes |
| Nip44.PayloadLayout | clink/nip44.py:110-118 | a payload is version 2, the nonce, the padded text under the cipher key and nonce, and the MAC of nonce and ciphertext |
| Noffer.ParseTlv | clink/noffer.py:72-85 | terminates, fails exactly when the input is no sequence of whole records, and collects their values by type in order |
| Noffer.ParsesExactlySerials | clink/noffer.py:72-85 | parsing succeeds exactly on what serialising gives, and gives those records |
| Noffer.ParseOfConcatenation | clink/noffer.py:72-85 | parsing two well-formed strings in a row merges the two parses |
| Noffer.EncodeTlv | clink/noffer.py:57-69 | refuses exactly a value longer than 255 bytes, and writes the highest type first |
| Noffer.DescendingSorted | clink/noffer.py:57-69 | the written order is strictly descending |
| Noffer.TlvRoundTrip | clink/noffer.py:57-85 | parsing inverts encoding for every map of byte types to short values |
| Hex.HexRoundTrip | clink/noffer.py:127-136 | reading what `hex` wrote gives the bytes back |
| Hex.CanonicalIsFixed | clink/noffer.py:88-92 | a lower-case hex string is what `hex` writes for its bytes |
| Hex.HighDigitFirst | clink/noffer.py:88-136 | the higher half of a byte is written first, and either case is read |
| NofferCode.Encode | clink/noffer.py:88-104 | succeeds exactly on the offers that have a code, and raises OverflowError exactly for a price outside four bytes |
| NofferCode.Decode | clink/noffer.py:107-136 | the checks in order, each with the exception it ends in |
| NofferCode.CodeRoundTrip | clink/noffer.py:88-136 | every offer that has a code comes back, with a canonical key and a zero price as none |
| NofferCode.CodeLayout | clink/noffer.py:88-104 | the data of a code, octet by octet: price, price type, offer id, relay, key |
| NofferCode.DecodedIsCanonical | clink/noffer.py:107-136 | whatever decodes names a whole key in canonical hex and no negative price |
| NofferCode.CodeRoundTripExact | clink/noffer.py:88-136 | it comes back unchanged exactly if its key is canonical and its price is not zero |
| NofferCode.CodesTellOffersApart | clink/noffer.py:88-104 | offers share a code exactly if they differ only in those two respects |
| NofferCode.TrailingRecordsIgnored | clink/noffer.py:72-136 | appended records change nothing, unless they bring the first price |
| NofferCode.IndexErrorExactly | clink/noffer.py:107-136 | decoding raises IndexError exactly for a code that lacks nothing but its price type byte, and otherwise only ValueError |
| NofferCode.EmptyPriceTypeRaisesIndexError | clink/noffer.py:124-136 | every offer's code with the price type record emptied is such a code |
| Decimal.QuantizeRoundsDown | clink/protocol.py:86-101 | the result is at most the input and has at most the given figures |
| Decimal.QuantizeIsGreatest | clink/protocol.py:86-101 | no number with so few figures lies between result and input |
| Decimal.QuantizeMonotone | clink/protocol.py:86-101 | more capacity is never advertised as less |
| Decimal.QuantizeIdempotent | clink/protocol.py:86-101 | a rounded amount rounds to itself |
| Decimal.QuantizeLoss | clink/protocol.py:86-101 | with two figures less than a tenth of a positive amount is lost |
| Protocol.NumeralMeansNumber | clink/protocol.py:154-177 | a number and its numeral are the same request, however large |
| Protocol.AmountsExactly | clink/protocol.py:154-177 | an amount is an integer, or a numeral of at most sixteen ASCII digits, from 1 to the supply, and nothing else |
| Protocol.SdkSpellingWins | clink/protocol.py:154-177 | the SDK's spelling of the amount wins whenever it is there, whatever its value |
| Protocol.RefusalsExactly | clink/protocol.py:195-225 | which code refuses which request, in the order of the checks, and with which range |
| Protocol.IssuedIsAvailable | clink/protocol.py:195-225 | every invoice is for the amount named, within minimum, supply and availability; no refusal promises more than there is |
| Protocol.AdvertisedRangeIsHonoured | clink/protocol.py:86-225 | for any minimum, every amount in an advertised range is accepted at the same availability exactly if the range is empty, or starts at 1 or more and the availability is below 22 million bitcoin |
| Protocol.AdvertisedMaximumIsHonoured | clink/protocol.py:86-225 | with the minimum of 1, exactly if the availability is below 22 million bitcoin, hence for every availability within the supply |
| Protocol.OverpromisedIsRefused | clink/protocol.py:195-225 | at that availability the advertised maximum itself is refused |
| Protocol.RefusalShowsRoundedCapacity | clink/protocol.py:195-225 | refusals at availabilities that round alike are the same |
| Protocol.NofferIsPayable | clink/clink_plugin.py:825-831 | whoever decodes an active offer's noffer and names an amount gets an invoice exactly if it is positive, within the supply and available |
| Protocol.NewOfferIsPayable | clink/offers.py:135-153 | a spontaneous offer just created is active, advertises the relay it was created with, and is payable through its noffer |
| Text.StripIdempotent | clink/offers.py:71-79 | stripping leaves nothing to strip, and nothing at all of a blank string |
| Text.StripExactly | clink/offers.py:71-79 | stripping takes spaces at both ends, all of them and nothing else |
| Offers.DictRoundTrip | clink/offers.py:49-68 | an offer survives being stored and read |
| Offers.LegacyEntry | clink/offers.py:55-68 | an entry stored before the later fields existed reads as an active spontaneous offer, custom exactly if it names a relay; without an id or with an unknown price type it does not read |
| Offers.AdvertisedRelays | clink/offers.py:82-94 | the loop collects the distinct advertised relays |
| Offers.ListenRelays | clink/offers.py:97-116 | the loop collects the default if needed, then the distinct pinned relays |
| Offers.AdvertisedMembers | clink/offers.py:82-94 | the list holds exactly the non-blank relays that some offer advertises, each once |
| Offers.ListensWhereItAdvertises | clink/offers.py:82-116 | for every non-empty list of offers the two lists hold the same relays, each once |
| Offers.NoOffers | clink/offers.py:82-116 | without offers nothing is advertised and the default is listened on |
| OfferBook.ReloadIsIdentity | clink/offers.py:124-133 | loading what was persisted gives the same offers in the same order |
| OfferBook.NofferNeverChanges | clink/offers.py:119-210 | once an offer has a relay, its noffer is the same through any run that spares it, whatever the default relay is |
| OfferBook.PinnedForGood | clink/offers.py:155-173 | an offer without a relay follows the default until it is pinned, and then never again |
| OfferBook.DecodedRelayIsListenedOn | clink/clink_plugin.py:245-264 | whoever decodes a stored offer's noffer is sent to a relay that is listened on |
| OfferBook.CreatedOffer | clink/offers.py:135-153 | a new offer is filed last, active, named and priced as asked, with its relay stripped, and custom only if that leaves one |
| OfferBook.PinnedOffers | clink/offers.py:155-173 | every offer without a relay gets the given one, stripped, as not chosen by the user; nothing else changes |
| OfferBook.RemovedOffer | clink/offers.py:181-186 | removing an offer leaves the others as they are |
| OfferBook.SettersChangeOneField | clink/offers.py:188-210 | a setter changes its field of that offer and nothing else |
| OfferBook.OfferStore.Open | clink/offers.py:124-130 | a store opens exactly if every stored entry can be read |
| OfferBook.OfferStore.Create | clink/offers.py:135-153 | files the new offer last and persists |
| OfferBook.OfferStore.PinMissingRelays | clink/offers.py:155-173 | pins exactly the offers without a relay, and lists them in order |
| OfferBook.OfferStore.RemoveOffer | clink/offers.py:181-186 | removes one offer, if it is there |
| OfferBook.OfferStore.SetOfferActive | clink/offers.py:188-194 | changes that field of that offer only |
| OfferBook.OfferStore.SetOfferLabel | clink/offers.py:196-202 | changes that field of that offer only |
| OfferBook.OfferStore.SetOfferMemo | clink/offers.py:204-210 | changes that field of that offer only |
| OfferBook.OfferStore.Restart | clink/offers.py:124-130 | a new store over the same storage holds the same offers |
| Transport.HeartbeatManager.UpdateRelays | clink/nostr_transport.py:101-145 | keeps exactly the wanted connections as they are, adds one new one for each missing url that answers, and re-subscribes once, never over none |
| Transport.HeartbeatManager.DropRelays | clink/clink_plugin.py:645-663 | closes and forgets the given connections only |
| Transport.HeartbeatManager.PruneDeadRelays | clink/clink_plugin.py:630-643 | drops exactly the connections seen to be broken |
| Transport.HeartbeatManager.EnsureListenerRelays | clink/clink_plugin.py:588-611 | does nothing if no wanted relay is missing; otherwise a wanted relay is served exactly if it was or was missing and answered |
| Transport.HeartbeatManager.WatchdogPass | clink/clink_plugin.py:732-740 | after a prune and an ensure a wanted relay has a working connection exactly if it had one or answered |
| Transport.HeartbeatManager.ReattachSilent | clink/clink_plugin.py:718-730 | silent connections are replaced, the others left alone |
| Transport.HeartbeatManager.ServeOffers | clink/clink_plugin.py:245-255 | after a pass every advertised relay that answers, or was working, is listened on |

## Left out

- Websockets, heartbeats, subscriptions and the task group: library code. Connect and publish outcomes,
  wake-ups and cancellations are choices of the environment.
- Elliptic-curve key agreement, the cipher, HMAC, base64, UTF-8 and bech32 themselves: used through laws.
- The wallet and its Lightning node: a map from payment hash to request status, a capacity, fresh hashes.
- One `ClinkServer` object: its fields are split over `ReceiptRuntime`, `ClinkServer`, `PayoutRuntime`,
  `SeenCache` and `HeartbeatManager` by the ledger they belong to.
- Floating point: fees and times are exact. A fee that a float would round across a whole millisat differs.
- Aliasing of offers: `OfferStore.get` hands out the stored object; offers are values here.
- Invoice creation that raises after the wallet stored a request leaves that request behind, as in the
  code; the theorem on unpaid requests speaks of issues that ran to their end.
- Delivery.Next: more interleavings than the event loop allows - a tick's loop need not wait for its
  publish, and any coroutine may be cancelled at any await - so its theorems hold of a superset of runs.
- Server.Next: other steps may happen between any two steps of a dispatch, where the code yields only while
  it sends a response; a delivery may be recorded for any hash that was ever due, and there are no others
  (`Retries.DeliveriesWereDue`).
- ReceiptRuns.OwedExactlyUntil: assumes that no later invoice reuses the hash and that nothing calls
  `forget`, which the plugin never does.
- Transport.HeartbeatManager.UpdateRelays: the two critical sections are one step; a connection dropped by
  another task between them is not modelled.
- A sleep ends by the same clock as the registry's times; the event loop's own clock is not modelled.
- `normalize_url` of the transport library is not part of this model; urls reach the manager normalized.
- Memo sanitising, settings, relay probing, liveness checks, the Qt tab, commands and the build script.
