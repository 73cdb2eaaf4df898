# Verification of evsys-back

A Dafny model of the parts of the EV-charging back end in which a mistake costs money or data, with
proofs over all inputs and all runs.

- **Payments** (`PaymentModel`, `PaymentOrders`, `PaymentLedger`, `PaymentCards`, `PaymentEffects`, `PaymentCore`,
  `CardExpiry`).
  `PaymentModel` says for every operation of the payment core what store it leaves; `PaymentCore.Core` is the
  core itself, a class that updates its records in place, each method proved to do exactly that.
  `PaymentOrders` proves what every run whatsoever keeps. `PaymentLedger` adds an observer who writes down
  charges, refusals and money approved, and proves where the money of a transaction can be.
  `PaymentCards` proves which card is charged and how failures are counted, `PaymentEffects` who is charged and
  what each operation writes, said of the records alone.
- **Preauthorizations** (`Preauthorization`, `PreauthorizationEffects`): order numbers as text, the amounts they hold,
  what each operation writes and whose records it may touch.
- **Reports** (`StationUptime`, `HourTotals`, `PowerReport` and what its rows hold in `PowerRows`, with the laws of
  grouping in `Aggregation`).
- **Gateway signatures** (`RedsysSignature`, `Base64`).
- **Report mails** (`MailSchedule`, with the proleptic Gregorian calendar in `Calendar`).
- **Meter downsampling** (`MeterDownsampling`), **log broadcast** (`LogBroadcast`) and **webhook health**
  (`WebhookHealth`). `Sorting`, `Sets` and `Options` are shared.

`dafny verify dfyconfig.toml` checks everything.

## Reading the model

- Instants are nanoseconds since the epoch, dates are day numbers, amounts are integers, and floats are exact
  reals. Every operation reads the clock once.
- Queries have their meaning in MongoDB: an open order is one that is not completed, unbilled is finished with
  something to pay and less billed, pending is a retry time not after now, the default card must have no
  failures. A record read from the store is a copy. The last order is the one with the greatest number.
- A run is a sequence of atomic actions in any order. `PaymentOrders` puts no condition on it. The theorems
  about money need runs that are `Disciplined`: a sweep visits what its query selects once the last charge is
  answered, each charge is answered once, and an approval echoes the amount. `EchoSettles` and
  `ApprovalSettles` say exactly when an approval bills what it should otherwise, and `SecondApprovalBillsAgain`
  what a repeated one does. Card enrollments are opened, answered and refunded at any time.
- The hourly report steps calendar days and formats dates in the location of its first instant
  (`impl/database/reports.go:226-228`), while the dates of its data are those of UTC. The location is an offset from
  UTC, any one, under which calendar days are 24 hours.
- Rows of the system log come in the order of time, as the queries that read them sort them.
- A method is proved to do what a function of the model says; what that function says is proved again without it, in
  fields, numbers and dates: `ApprovalWrites`, `SessionRowHolds`, `CalendarCounts`, `ChainsBlocks` and their like.

## What the proofs turned up

- `PayTransaction` means to prefer a card added between attempts over one that failed before
  (`impl/core/core.go:1291-1293`). A retry clears the error first and looks at the card as the transaction
  remembers it, with the failures it had when it was chosen: `RefusedCardIsRetried` proves that the refused card
  is charged again, whatever cards have been added (`NewCardIsPassedOver` is an instance), and
  `RetrySwitchesCard` says exactly when it is not.
- A captured preauthorization that is set to `AUTHORIZED` again can be captured again, and its record keeps the
  second amount only (`ReopenedIsTakenTwice`). `MoneyIsRecorded` says for all runs exactly when a record tells all
  the money taken.
- Log messages of equal time are lost when a page limit parts them, or when one arrives at the time the cursor
  stands at (`EqualTimesAreLost`). `PageLosesNothing` and `NothingIsLost` say exactly when nothing is lost, for one
  page and for all runs.
- A signature need not be written by an encoder to be accepted: line breaks are skipped and bits left over ignored
  (`LineBreakIsAccepted`, `SpareBitsAreAccepted`). `AnyEncoderWroteIt` says for every accepted text whether an
  encoder wrote it.
- An uptime period that ends before it begins, as after the cut to the first data one may, counts backwards
  (`OnlyBackwardsIsNegative`).

## Model

| member | source | states |
|---|---|---|
| PaymentLedger.CollectedOnceOrNever | impl/core/core.go:1613-1685 | in every disciplined run what the gateway approved for a transaction is zero or exactly its amount; then it is paid and neither sweep selects it at any time |
| PaymentLedger.PaidIsFinal | impl/core/core.go:1946-1989 | once paid, no later action of such a run charges the transaction, refuses it, collects again or changes its record |
| PaymentLedger.NeverStranded | impl/core/core.go:1946-1989 | a finished transaction with something to pay is in exactly one place: charge in flight, selected by the unbilled sweep, selected by the retry sweep when due, paid, written off, or given up with the error recorded |
| PaymentLedger.ChargesAreBounded | impl/core/core.go:24-32 | at most five charges per transaction, and four more for each retry that found its card expired; never two unanswered; and where no retry found that, charge k + 1 comes no earlier than the k-th delay after refusal k |
| PaymentLedger.RefusalsRunOut | impl/core/core.go:1738-1797 | every refusal lowers, by exactly one and never below zero, the number of refusals a transaction can still take |
| PaymentLedger.ExpiryRenewsAttempts | impl/core/core.go:1303-1319 | a retry that finds the card expired hands the transaction back to the unbilled sweep with all five attempts before it |
| PaymentLedger.RunKeepsLedger | impl/core/core.go:1233-1393 | the invariant of accounts and charges in flight survives every disciplined run |
| PaymentLedger.StepKeepsLedger | impl/core/core.go:2083-2115 | every single action keeps that invariant and touches no account but the one it is about |
| PaymentLedger.SweepIsRun | impl/core/core.go:1946-1972 | the unbilled sweep over all it lists is a disciplined run of its turns, though the list is read once before |
| PaymentLedger.RetrySweepIsRun | impl/core/core.go:1975-1989 | the same of the retry sweep |
| PaymentLedger.ApprovedChargeIsCollected | impl/core/core.go:1524-1547 | such runs do collect: a charge approved with its amount leaves the transaction paid with exactly that collected |
| PaymentLedger.EchoSettles | impl/core/core.go:1628-1676 | an approval settles the transaction if and only if it echoes the amount of the order |
| PaymentLedger.ApprovalSettles | impl/core/core.go:1628-1677 | an approval of any order of a transaction, in flight or not, open or closed, leaves exactly its amount billed if and only if nothing was billed and the order counts for the amount, or all was billed and it counts for nothing |
| PaymentLedger.SecondApprovalBillsAgain | impl/core/core.go:1670-1677 | a second approval of an order bills its amount once more |
| PaymentOrders.RunAdvances | impl/core/core.go:757-789 | in every run, of any actions and answers: new numbers exceed all stored ones, a transaction has at most one open order and lists none twice, completed orders stay completed with their result and amount, every stored retry has its own delay |
| PaymentOrders.OutcomeIsFinal | impl/core/core.go:1628-1640 | an order completed at any moment of a run has the same result and amount at every later one |
| PaymentOrders.PayAdvances | impl/core/core.go:1327-1368 | a charge leaves one open order, of the amount requested and with a number larger than all before, and no order of another transaction changed |
| PaymentOrders.PayEffect | impl/core/core.go:1233-1368 | for each way the call can end, what became of the transaction, its orders and its retry record, and that nothing else changed |
| PaymentOrders.RefuseAdvances | impl/core/core.go:1738-1797 | a refusal of any order, at any time, keeps the store valid and every completed order's outcome |
| PaymentOrders.ResponseAdvances | impl/core/core.go:1613-1720 | so does an approval, also a repeated one |
| PaymentOrders.NewOrderAdvances | impl/core/core.go:757-789 | so does an order opened by a client, whose number is larger than all before |
| PaymentOrders.ChosenNumberAdvances | impl/core/core.go:764-789 | an order with a number chosen by the caller keeps the invariant and every outcome if and only if it keeps the order stored under that number, or has a number past all others, and opens no second order of its transaction |
| PaymentOrders.ListsOrderOnce | entity/transaction.go:52-59 | the orders of a transaction stay distinct, keep their order, and contain the one added |
| PaymentOrders.SchedulesInRange | impl/core/core.go:2149-2190 | attempts stay between one and four, so that the delay exists, and the retry is due that delay after it was written |
| PaymentOrders.ClosesOpenOrder | impl/core/core.go:1327-1337 | after closing, the transaction has no open order |
| PaymentCards.ChargesTheRightCard | impl/core/core.go:1279-1325 | a charge never goes to an expired card; it goes to the own or default card, or if that is doubtful and a fresh one exists to a fresh one, a default one first; request, order and transaction agree on it |
| PaymentCards.RetrySwitchesCard | impl/core/core.go:2100-2113 | a retry charges another card if and only if the remembered card is itself unusable or counted failures when chosen, and the user has a fresh one |
| PaymentCards.RefusedCardIsRetried | impl/core/core.go:1291-1301 | a refused card without earlier failures is charged again by the retry, which does charge, whatever cards there are by then |
| PaymentCards.NewCardIsPassedOver | impl/core/core.go:1291-1301 | an instance: the retry charges the refused card although the user has made a fresh one the default |
| PaymentCards.AnswersCount | impl/core/core.go:1882-1900 | a refusal of any order adds one failure to its card, an approval resets it, and no other card or field changes; an approved enrollment adds at most one card |
| PaymentCards.SilenceCounts | impl/core/core.go:1327-1337 | closing an unanswered order for a new charge counts as one failure of its card |
| PaymentEffects.ChargesTheUser | impl/core/core.go:1257-1368 | the user is that of the tag on the transaction, else of the stored tag; the charge starts from the card of the transaction, else from a stored card of that very user without failures, a default one if there is such; it stays there unless that card has no token, failures, an error behind it or a month that is over and the user has a sound one to take its place; request, order and transaction have that card, all that is due and that user |
| PaymentEffects.ChoosesForTheUser | impl/database/mongo.go:1082-1104 | there is no card to start from if and only if the transaction has none and the user has no stored card without failures; the choice of a charge, an expired one included, in those terms |
| PaymentEffects.OutcomesOfPay | impl/core/core.go:1246-1325 | each way a call can end, if and only if what of the transaction, its tag, its user and the cards of that user |
| PaymentEffects.ClosesWithoutResponse | impl/core/core.go:1327-1337 | an order still open when its transaction is charged anew is completed as closed without response, and is otherwise as it was |
| PaymentEffects.FirstNumber | impl/core/core.go:342-348 | the first order has the number 1200 |
| PaymentEffects.ApprovalWrites | impl/core/core.go:1628-1681 | an approval completes the order with amount and code of the response, unless it was completed; its transaction has that amount more billed, lists the order once behind the entries there were, names it, and has no error and no retry; no other transaction changes |
| PaymentEffects.RefusalWrites | impl/core/core.go:1738-1797 | a refusal completes the order with the first reason given of code, error code and error text; its transaction counts as billed, lists and names the order, has the reason for its error and the next retry |
| PaymentEffects.SchedulesTheNext | impl/core/core.go:2149-2190 | retries come an hour, a day, a week and thirty days after the refusal, and none after the fourth; the record keeps when the first was made |
| PaymentEffects.AnsweredIsListed | impl/core/core.go:1670-1673 | in every run, once answered and for ever after, an order of a known transaction is listed by it exactly once |
| PaymentEffects.EnrollmentWrites | impl/core/core.go:1687-1718 | an approved enrollment adds the card with identifier, token and expiry of the response for the user of the order, unless that user has it, and asks for what it cost back |
| PaymentEffects.RefundWrites | impl/core/core.go:1646-1657 | an approved refund is written on its order, and touches no transaction, retry or other order; one that could not be sent changes nothing |
| PaymentEffects.NotificationIsAnswer | impl/core/core.go:1572-1610 | a notification does what the answer it reports does, with its response code alone for the reason of a refusal |
| PaymentEffects.ClientsOrder | impl/core/core.go:757-789 | a client's order is stored as it was sent, as the order of the user who sent it, whatever user it names; only a number and the time are given to one without |
| PaymentModel.PickFresh | impl/core/core.go:1994-2019 | the result is fresh, a default card if any default card is fresh, and there is none only if no card is fresh |
| PaymentCore.Core.PayTransaction | impl/core/core.go:1233-1393 | the method in place leaves the store and outcome of the model, which keeps it valid |
| PaymentCore.Core.ProcessPay | impl/core/core.go:1524-1547 | the same, for a reply or a transport error |
| PaymentCore.Core.ProcessRefund | impl/core/core.go:1550-1569 | the same, for the reply to a refund |
| PaymentCore.Core.ProcessNotification | impl/core/core.go:1572-1610 | the same, for a notification |
| PaymentCore.Core.ProcessPaymentResponse | impl/core/core.go:1613-1720 | the same, for an approved response, with the refund it may ask for |
| PaymentCore.Core.CloseOrderOnError | impl/core/core.go:1738-1797 | the same, for a refused order |
| PaymentCore.Core.SchedulePaymentRetry | impl/core/core.go:2149-2190 | the same; the index into the delays is in range |
| PaymentCore.Core.RetryOne | impl/core/core.go:2083-2115 | the same, for one retry |
| PaymentCore.Core.PickFreshPaymentMethod | impl/core/core.go:1994-2019 | the single pass with a fallback finds what two searches find |
| PaymentCore.Core.ProcessUnbilledTransactions | impl/core/core.go:1946-1972 | visits exactly the transactions unbilled at the start, each once, and sends the requests of the visits |
| PaymentCore.Core.ProcessPaymentRetries | impl/core/core.go:1975-1989 | visits exactly the retries due at the start, each once |
| PaymentCore.Core.SetOrder | impl/core/core.go:757-789 | an order without a number gets the next one after the open order is closed, one with a number is stored as it is; the invariant stays in the first case, and in the second if the order fits |
| PaymentCore.Core.GetPaymentOrderByTransaction | impl/database/mongo.go:1065-1072 | finds the open order of a transaction if there is one |
| PaymentCore.Core.SavePaymentOrder | impl/database-mock/mock-db.go:614-625 | stores the order and raises the greatest number |
| PaymentCore.Core.GetUnbilledTransactions | impl/database/mongo.go:1265-1272 | lists every unbilled transaction once and nothing else |
| PaymentCore.Core.GetPendingRetries | impl/database/mongo.go:1289-1293 | lists every due retry once and nothing else |
| PaymentCore.TransactionRecord.AddOrder | entity/transaction.go:52-59 | appends the order unless its number is listed |
| CardExpiry.ExpiredAfterItsMonth | impl/core/core.go:2045-2068 | a card is expired if and only if its text is a month and the first day after that month has begun |
| CardExpiry.DigitsNameTheMonth | impl/core/core.go:2045-2068 | the text is two digits of the year from 2000 on and two of the month, the first of either maybe a sign; the card is expired if and only if the date of the day is past that month |
| CardExpiry.OtherTextsNeverExpire | impl/core/core.go:2045-2068 | every other text never expires |
| Preauthorization.EveryFormIsOneKey | impl/core/core.go:335-339 | spaces, a plus sign, leading zeros and text behind do not matter: every decimal form of a number becomes the key of that number, and one too large for an integer the key of zero |
| Preauthorization.ScanFormat | impl/core/core.go:335-339 | reading a written number gives it back, for every 64-bit integer |
| Preauthorization.NormalizeIdempotent | impl/core/core.go:335-339 | normalizing twice is normalizing once, for every text |
| Preauthorization.KeysTellNumbersApart | impl/core/core.go:335-339 | two numbers have the same key if and only if they are equal |
| PreauthorizationEffects.TwelveDigits | impl/core/core.go:335-339 | a key is the number in decimal digits with zeros before it up to twelve characters, the sign counted |
| PreauthorizationEffects.NoNumberIsZero | impl/core/core.go:335-339 | text without digits at its beginning, or behind an empty line, becomes the key of zero |
| PreauthorizationEffects.NumbersCount | impl/core/core.go:902-911 | the first number is 3000, any other one more than that of the record created last, wrapping round after the largest integer |
| Preauthorization.NewNumberIsLarger | impl/core/core.go:902-911 | whatever the clocks say, the new number exceeds all and its key is free if and only if the record created last has the greatest number, and not the largest integer |
| Preauthorization.LatestIsGreatest | impl/core/core.go:902-911 | where numbers grow with time the record created last has the greatest number |
| Preauthorization.RunKeepsKeys | impl/core/core.go:902-944 | in every run whose creations pick the greatest number no record is replaced, renamed or has its preauthorized amount changed |
| Preauthorization.RunKeepsNumbers | impl/core/core.go:902-944 | with a clock that advances at creations they do pick it, and numbers grow with the time of creation |
| Preauthorization.RunHoldsAmounts | impl/core/core.go:1092-1163 | in every run of creating, saving, capturing and updating, the captured amount lies between zero and the preauthorized |
| Preauthorization.MoneyIsRecorded | impl/core/core.go:1112-1160 | in every run a record says at most what the gateway took for its number, and all of it if and only if no approved capture met a record with money captured already and no creation took the place of one |
| Preauthorization.OnlyRecapturesForget | impl/core/core.go:1112-1160 | where creations pick the greatest number, that is if and only if no approved capture met a record with money captured already |
| Preauthorization.NoMoreThanPreauthorized | impl/core/core.go:1117-1125 | then the gateway took no more than was preauthorized |
| Preauthorization.ReopenedIsTakenTwice | impl/core/core.go:1199-1213 | an update to AUTHORIZED after a capture lets the whole amount be taken twice and recorded once |
| PreauthorizationEffects.CreateWrites | impl/core/core.go:925-999 | every field of a new record, by the answer of the gateway |
| PreauthorizationEffects.SaveWrites | impl/core/core.go:1025-1066 | owners only; the status by its name, a failure if unknown, and what came with it; nothing else changes |
| PreauthorizationEffects.CaptureWrites | impl/core/core.go:1092-1173 | each outcome if and only if what of the record, the amount and the answer, and what it writes |
| PreauthorizationEffects.UpdateWrites | impl/core/core.go:1176-1213 | owners and users with power only; one of four statuses by its name and the time, nothing else |
| PreauthorizationEffects.OthersLeaveAlone | impl/core/core.go:1044-1195 | in every run whose creations pick the greatest number a record stays as it is while all others do is create, save theirs and, without power, update theirs |
| Preauthorization.Preauthorizations.GetLastPreauthorizationOrder | impl/database-mock/mock-db.go:827-837 | finds a record created last |
| Preauthorization.Preauthorizations.CreatePreauthorizationOrder | impl/core/core.go:891-1020 | the method in place makes the model's step, whatever the gateway answers |
| Preauthorization.Preauthorizations.SavePreauthorization | impl/core/core.go:1025-1066 | the same; owners only, an unknown status is a failure |
| Preauthorization.Preauthorizations.CapturePreauthorization | impl/core/core.go:1092-1173 | the same; only authorized records, and no more than was preauthorized |
| Preauthorization.Preauthorizations.UpdatePreauthorization | impl/core/core.go:1176-1213 | the same; owners and administrators, an unknown status is an error |
| StationUptime.Sweep | impl/database/reports.go:690-739 | the one pass gives the number of instants of the period whose latest event is online, the rest is offline, both add up to the period, the percentage lies in 0 to 100 |
| StationUptime.OnlyBackwardsIsNegative | impl/database/reports.go:651-654 | a period has negative times if and only if it ends before it begins, as one does that ends before there is any data |
| StationUptime.OnlineTimeComposes | impl/database/reports.go:690-739 | the count of instants online adds up over every split point, on an event or not |
| StationUptime.OnlineIsCount | impl/database/reports.go:690-739 | time online is the number of instants at which the state is online |
| StationUptime.StateOfLastEvent | impl/database/reports.go:694-725 | the state at an instant is that of the last event up to then, offline before the first |
| StationUptime.StateByText | entity/station_report.go:83-94 | a text is offline if and only if it reads unregistered in letters of any case, of a known state if and only if it reads registered |
| StationUptime.EventsAreRows | impl/database/reports.go:635-686 | the events of a station are its rows that say registered, if it is enabled, one each and in their order |
| StationUptime.EarliestIsFetched | impl/database/reports.go:638-654 | the data begins at the time of some fetched row, which no fetched row is before |
| StationUptime.UptimesCompose | impl/database/reports.go:690-739 | results over two periods that meet add up to the result over the whole: online time, offline time, percentage by length, and the final state of the second |
| StationUptime.UptimeReport | impl/database/reports.go:620-749 | exactly one row for each enabled station with events, sorted by id, over the period cut to the first data, never ending in an unknown state |
| StationUptime.GroupByStation | impl/database/reports.go:676-686 | every station that has events, with exactly its events in order |
| StationUptime.FetchedTextIsKnown | entity/station_report.go:83-94 | a fetched text is never of unknown state, and offline if and only if it says unregistered |
| StationUptime.LatestPerStation | impl/database/reports.go:775-790 | the sort and group stages: exactly the enabled stations with events, in order, each with a latest of its events |
| StationUptime.StationStatus | impl/database/reports.go:767-821 | exactly one row for each enabled station with events, sorted by id, with state, time, age and text of a latest event, from the log alone |
| StationUptime.FinalStateIsStatus | impl/database/reports.go:767-819 | with distinct times the state at the end of the period is that of the latest event |
| StationUptime.ReportsAgree | impl/database/reports.go:620-821 | both reports list the same stations, and where the times are distinct and the period reaches past them the final state of the one is the state of the other and known |
| HourTotals.TotalsByHour | impl/database/reports.go:205-261 | the rows are the 24 hours of exactly the stepped dates and the dates with data, in order, without repetition |
| HourTotals.CellHoldsItsLine | impl/database/reports.go:245-259 | a cell holds its own group's total, and zero if there is none |
| HourTotals.SteppedDates | impl/database/reports.go:224-228 | the stepped dates are strictly increasing and exactly the days reached from the first instant, at any offset from UTC |
| HourTotals.EnergyConserved | impl/database/reports.go:167-261 | the energy of the table is the energy of the sessions counted |
| HourTotals.RowHolds | impl/database/reports.go:245-261 | row k is hour k modulo 24 of a date that is later than the one before it every 24 rows, and holds in thousands the energy of exactly the sessions that stopped in that hour |
| HourTotals.DateHasRows | impl/database/reports.go:224-243 | a date has rows if and only if it is a whole number of days after the first, no later than the end, or a counted session stopped on it |
| PowerReport.ChargerRowIsRollUp | impl/database/reports.go:420-445 | a charger row folds the rows of its sessions: sample-weighted mean, greatest peak, and no mean above its peak |
| PowerReport.ChargerSessionPower | impl/database/reports.go:394-403 | where every session takes time, the session power of a charger is the mean of those of its sessions weighted with their durations |
| PowerReport.ChargersHoldAllSessions | impl/database/reports.go:420-466 | the charger rows together hold every session once with its energy, time and samples |
| PowerReport.SessionHasOneCharger | impl/database/reports.go:420-466 | every selected session is in exactly one charger row |
| PowerReport.ChargerRowCounts | impl/database/reports.go:424-426 | a charger row counts the sessions of its charger |
| PowerReport.HoursRollUpToDays | impl/database/reports.go:517-527 | grouping minutes by hour and those by day is grouping minutes by day, for every set of sessions |
| PowerReport.DayOfHours | impl/database/reports.go:517-570 | per date power and samples add, the peak is the greatest hourly peak, and the distinct sessions lie between the greatest and the sum of the hourly counts |
| PowerReport.PowerAtIsMax | impl/database/reports.go:498-510 | the power of a session minute is the greatest of its samples in the window |
| PowerReport.HourRowBounds | impl/database/reports.go:517-556 | at most 60 samples an hour, mean at most peak, energy at most peak for an hour |
| PowerReport.DayRowBounds | impl/database/reports.go:517-556 | at most 1440 samples a day, mean at most peak, energy at most peak for a day |
| PowerReport.FleetPeakBound | impl/database/reports.go:512-524 | the peak load of a bucket is at most the sum of its sessions' own peaks in it |
| PowerReport.SessionsOfBucket | impl/database/reports.go:561-567 | a bucket's sessions are exactly those that drew power in one of its minutes |
| PowerReport.HoursHoldAllPower | impl/database/reports.go:512-527 | hours and days hold all the power of the session minutes, neither more nor less |
| PowerRows.SessionHasRow | impl/database/reports.go:289-337 | a session has a row if and only if it is finished, stopped within the period, used energy, and is of the charger and group asked for |
| PowerRows.SessionRowHolds | impl/database/reports.go:347-386 | its row counts the samples that draw power, adds their powers, and has the greatest of them or zero for peak; its energy is the meter difference and its time that of the whole seconds |
| PowerRows.ChargerRowSums | impl/database/reports.go:420-445 | a charger row is the sum, column by column, of the rows of its sessions |
| PowerRows.MeansOfRow | impl/database/reports.go:394-417 | means are power over samples and energy times 3600 over seconds, zero where there is nothing to divide by |
| PowerRows.SessionMinuteHolds | impl/database/reports.go:488-511 | a session counts in a minute if and only if it has a row and a sample in that minute and the period draws power; with the greatest such sample |
| PowerRows.FleetMinuteHolds | impl/database/reports.go:512-517 | the fleet's power in a minute is the sum over the sessions that draw power in it |
| PowerRows.HourRowHolds | impl/database/reports.go:518-529 | an hour has a row if and only if one of its sixty minutes has charging; it counts those minutes, adds their fleet powers and has the greatest for peak |
| PowerRows.DayRowHolds | impl/database/reports.go:518-529 | the same of the 1440 minutes of a day |
| PowerRows.MeansOfBucket | impl/database/reports.go:545-556 | energy is a sixtieth of the power summed, the mean is over the minutes counted |
| Aggregation.GroupTwice | impl/database/reports.go:512-527 | grouping by a key and then by a coarser one is grouping by the coarser one, for every accumulator that is a commutative monoid |
| RedsysSignature.DecodeSignature | impl/redsys/signature.go:76-91 | the bytes of any text written by any of the four encodings, though other decoders are tried first; an error if and only if none accepts |
| RedsysSignature.VerifySignature | impl/redsys/signature.go:50-72 | accepts exactly the texts from which some decoder reads the expected MAC, so every encoding of it; refuses the texts read as other bytes as a mismatch and those nobody reads as undecodable; with a cipher that has an inverse and a MAC that tells keys apart, every encoding of the signature for another order number is a mismatch, zero bytes at the end aside |
| RedsysSignature.GenerateSignature | impl/redsys/signature.go:19-38 | the standard encoding of the MAC of the parameters under a key that decrypts to the order number and zeros, or the first error met; there is none if and only if the secret is the text of 24 bytes and the order number is not empty |
| RedsysSignature.SignaturesTellOrdersApart | impl/redsys/signature.go:27-35 | with a cipher that has an inverse and a MAC that tells keys apart, order numbers that differ in more than zero bytes at the end have different signatures |
| RedsysSignature.SignsOrFails | impl/redsys/signature.go:20-30 | which error, if and only if what is wrong with the secret, the order number or the key |
| RedsysSignature.ChainsBlocks | impl/redsys/signature.go:104-118 | each block of eight bytes is encrypted with its bits mixed with those of the encrypted block before it, the first one as it is |
| RedsysSignature.XorBits | impl/redsys/signature.go:116-118 | mixing gives exactly the bits in which the two differ |
| RedsysSignature.CryptBlocks | impl/redsys/signature.go:112-118 | filling the buffer block by block gives the chained encryption |
| RedsysSignature.CbcUndone | impl/redsys/signature.go:116-118 | chained decryption undoes chained encryption, for every cipher that has an inverse |
| RedsysSignature.PadsToBlocks | impl/redsys/signature.go:123-133 | padding adds zeros only, up to the least multiple of the block size that fits |
| RedsysSignature.KeyGivesOrderBack | impl/redsys/signature.go:97-121 | decrypting the key and stripping zeros gives the order number back if and only if it does not end in a zero byte |
| RedsysSignature.KeysTellOrdersApart | impl/redsys/signature.go:97-121 | distinct order numbers not ending in zero bytes have distinct diversified keys |
| Base64.DecodeEncode | impl/redsys/signature.go:78-83 | each encoding reads back what it wrote, and another one that accepts the text reads the same bytes |
| Base64.QuantaAgree | impl/redsys/signature.go:84-87 | a decoder makes of another encoder's text either the bytes that were written or nothing |
| Base64.DecodersAgree | impl/redsys/signature.go:84-87 | any two decoders that accept the same text, whoever wrote it, read the same bytes |
| Base64.AcceptedIsWritten | impl/redsys/signature.go:84-87 | a text that a decoder accepts is what its own encoder writes of the bytes read if and only if it has no line break and no bits left over in its last group |
| Base64.AnyEncoderWroteIt | impl/redsys/signature.go:84-87 | on that same condition, and no other, some encoder wrote it at all |
| Base64.Accepted | impl/redsys/signature.go:84-87 | a decoder accepts a text if and only if, line breaks aside, it is of its alphabet, filled up to a multiple of four or, without padding, not one more than such a multiple |
| Base64.WritesTheNumber | impl/redsys/signature.go:37 | three bytes are written as the four digits to the base 64 of the number they are, fewer with zero bytes added and the spare characters left out or filled up |
| Base64.ReadsTheNumber | impl/redsys/signature.go:84-87 | and read back as that number, the bits that make no byte dropped |
| Base64.AlphabetInOrder | impl/redsys/signature.go:78-83 | the characters of the two alphabets and their values |
| Base64.TestVectors | impl/redsys/signature.go:78-83 | instances, from section 10 of RFC 4648 among them |
| Base64.SkipsLineBreaksOnly | impl/redsys/signature.go:84-87 | carriage returns and line feeds are skipped, nothing else |
| Base64.LineBreakIsAccepted | impl/redsys/signature.go:84-87 | an instance: a text with a line break after it is read as the text, though no encoder writes it |
| Base64.SpareBitsAreAccepted | impl/redsys/signature.go:84-87 | an instance: two texts that differ in the bits left over are read as the same byte, though no encoder writes the second |
| MailSchedule.NextTickIsFirst | impl/mail/mail.go:90-97 | the tick is the first 06:00 after now, at most 24 hours ahead |
| MailSchedule.TickOf | impl/mail/mail.go:71-97 | a pass is followed by the tick of the next day if and only if it ends before it |
| MailSchedule.OneTickPerDay | impl/mail/mail.go:71-88 | passes that end before the tick of the next day tick at 06:00 on consecutive days, counted from the first tick |
| MailSchedule.DailyIfInTime | impl/mail/mail.go:71-97 | a run ticks once a day, at 06:00, if and only if every pass that has a successor ends before the tick of the next day |
| MailSchedule.DuePeriods | impl/mail/mail.go:99-110 | the periods due, in their order |
| MailSchedule.ReportsTile | impl/mail/mail.go:71-116 | over a run of such passes that read their clocks on the day of their tick, the ranges of each period follow one another without gap or overlap, across month ends, year ends and leap years |
| MailSchedule.TilesCoverOnce | impl/mail/mail.go:279-297 | every instant between the first range and the last lies in exactly one |
| MailSchedule.ReportsYesterday | impl/mail/mail.go:294-296 | the daily range is the whole day before today |
| MailSchedule.ReportsLastMonth | impl/mail/mail.go:291-293 | the monthly range is the whole month before the current one |
| MailSchedule.ReportsLastWeek | impl/mail/mail.go:283-290 | the weekly range is the last seven days that ended on a Monday |
| MailSchedule.DailyRangesMeet | impl/mail/mail.go:294-296 | two daily ranges meet if and only if they were computed on neighbouring days, prompt or not |
| MailSchedule.RunOnce | impl/mail/mail.go:121-170 | the cached batch sends the mails that loading for each subscriber would, and reloads a group only after a failure |
| MailSchedule.MailPerSubscriber | impl/mail/mail.go:121-170 | one mail to each subscriber whose group's report loads, in their order, with that report |
| MailSchedule.DueByTheDate | impl/mail/mail.go:90-110 | ticks are 21 600 seconds after a midnight; weekly reports are due on Mondays and monthly ones on the first, by the date |
| MailSchedule.RangesByTheDate | impl/mail/mail.go:279-297 | the ranges run from midnight to midnight: yesterday, the seven days before the latest Monday, the first of the month before to the first of this one |
| Calendar.CalendarCounts | impl/mail/mail.go:279-297 | year, month, day and weekday of every day from 1970 on are those that counting gives, from Thursday, 1 January 1970, with month lengths and leap years written out |
| Calendar.DayByDay | impl/mail/mail.go:279-297 | the same step for every day, before 1970 too |
| Calendar.DayZero | impl/mail/mail.go:279-297 | day 0 is Thursday, 1 January 1970 |
| MeterDownsampling.NormalizeMeterValues | impl/core/functions.go:23-63 | the loop over real positions gives the samples at exact quotients, and the input when there is nothing to drop |
| MeterDownsampling.PositionInRange | impl/core/functions.go:31-36 | both neighbours of a position are inside, so that the clamp never acts |
| MeterDownsampling.PositionsIncrease | impl/core/functions.go:31-33 | positions are more than a sample apart, and no position passes the lower neighbour of the next |
| MeterDownsampling.SamplesLieBetween | impl/core/functions.go:37-60 | every interpolated field lies between its two neighbours, after truncation too |
| MeterDownsampling.SampleIsOnTheLine | impl/core/functions.go:31-60 | a sample at a reading is that reading; one r n-th parts beyond has power, energy, voltage and currents as far on the way to the next, whole numbers without their fraction, and all other fields from the reading before |
| MeterDownsampling.EnergyStillNeverFalls | impl/core/functions.go:38-41 | consumed energy that never falls still never falls |
| MeterDownsampling.PowerStaysInStep | impl/core/functions.go:42-47 | the two readings of power stay in step |
| MeterDownsampling.SecondPassChangesNothing | impl/core/functions.go:23-26 | the result has the wanted length and first reading, and a second pass returns it |
| MeterDownsampling.RealPosition | impl/core/functions.go:32-34 | floor and ceiling of the real position are quotient and rounded-up quotient |
| LogBroadcast.HandedInOrder | internal/api/websocket/broadcaster.go:36-83 | in every run, whatever polls fail and clients do, what is handed to the pool are messages newer than the start, in their order and each at most once; and a first part of them, with none passed over, if no time is torn |
| LogBroadcast.NothingIsLost | internal/api/websocket/broadcaster.go:36-83 | a run loses no message if and only if no page parts messages of equal time and none is appended at the time the cursor has been moved to |
| LogBroadcast.DifferentTimesAreNeverTorn | internal/api/websocket/broadcaster.go:55-57 | where all times differ nothing is torn, and the order is strict |
| LogBroadcast.ListenerGetsTheLog | internal/api/websocket/pool.go:62-67 | a client listening to the log throughout receives exactly what is handed, once and in order, and misses nothing if no time is torn |
| LogBroadcast.DueIsReceived | internal/api/websocket/pool.go:62-67 | any client receives exactly the messages handed while it listened |
| LogBroadcast.ListenerHearsOfStations | internal/api/websocket/broadcaster.go:59-66 | a client listening to charge points is told of each that a message names, once and before the message goes out |
| LogBroadcast.PollAdvances | impl/database/mongo.go:228-238 | a successful poll takes a full page or all there is, and finds nothing only when nothing is newer than the cursor; which is when all has been handed, if nothing is lost |
| LogBroadcast.PageLosesNothing | impl/database/mongo.go:228-238 | for every log in the order of time, cursor and positive limit: what is newer than the last message of a page is what follows it, if and only if the limit does not part messages of equal time |
| LogBroadcast.PageIsNewest | impl/database/mongo.go:228-238 | a page is the first messages newer than the cursor, as many as the limit allows |
| LogBroadcast.StationsAreNamed | internal/api/websocket/broadcaster.go:59-66 | two characters or more name a charge point |
| LogBroadcast.FanOutReaches | internal/api/websocket/pool.go:62-73 | what an event does to each client: one response more for an open registered one of the subscription, nothing for any other |
| LogBroadcast.ComingAndGoing | internal/api/websocket/pool.go:46-55 | what registering and leaving do to the client, a new one listening to charge points, and that no other changes |
| LogBroadcast.EqualTimesAreLost | impl/database/mongo.go:230-232 | an instance: of two messages with equal time parted by a page limit the second is never found, while in one page both are |
| LogBroadcast.Pool.SendEvent | internal/api/websocket/pool.go:62-73 | one turn reaches every registered client of the subscription that is open, and nobody else |
| LogBroadcast.Pool.Register | internal/api/websocket/pool.go:46-48 | a client is registered and greeted |
| LogBroadcast.Pool.Unregister | internal/api/websocket/pool.go:49-55 | a known client is removed and its channel closed, an unknown one changes nothing |
| LogBroadcast.Broadcaster.Tick | internal/api/websocket/broadcaster.go:49-57 | the cursor moves to the last message of a page that is not empty, and stays otherwise |
| LogBroadcast.Broadcaster.SendNextMessage | internal/api/websocket/broadcaster.go:57-80 | a message goes out first as an event of its charge point, if it names one, then as a log event |
| WebhookHealth.GetWebhookHealth | impl/core/core.go:2232-2265 | the views are those of the subscribers and of the rows nobody took, in order of their names |
| WebhookHealth.CountersAreConserved | impl/core/core.go:2236-2263 | any counter sums over the views to its sum over the last row of each name, and over all rows if names are distinct |
| WebhookHealth.SumsAreConserved | impl/core/core.go:2236-2263 | pending, delivered and failed add up to those stored |
| WebhookHealth.OneViewPerName | impl/core/core.go:2236-2263 | a full outer join: a view for every name of a subscriber or a row and for no other, one each if subscribers are distinct |
| WebhookHealth.ViewsHold | impl/core/core.go:2236-2263 | each view is that of a subscriber, with the counters of the row that stands last under its name, or nothing if there is none or an earlier subscriber has the name, or that of a name only rows have, with its last row; every subscriber has one |
| Sorting.StringLeqByCharacter | impl/core/core.go:2264 | names are in order by the first character that differs, and after their beginnings |

## Left out

- Mutual exclusion: the lock of a transaction is dropped when released, so actions are taken as atomic instead of proved to be.
- PaymentLedger.CollectedOnceOrNever: does not cover forced retries, payments requested by hand, refunds of transactions and repeated answers; `PaymentOrders` covers them for orders.
- PaymentLedger.ChargesAreBounded: says nothing of the time between charges once a retry has found a card expired.
- PaymentOrders.RunAdvances: runs have no orders with a number chosen by the caller; `ChosenNumberAdvances` says which of them would keep what runs keep.
- HourTotals.SteppedDates: the offset is constant; a location whose clocks change between the first instant and the last is not modelled.
- MailSchedule.ReportsTile: needs passes that end before the tick of the next day and read their clocks on the day of their own; `DailyRangesMeet` says what holds without that.
- MailSchedule.RunOnce: a mail counts as sent when its report loads; delivery, subject and text are outside.
- Preauthorization.RunKeepsNumbers: needs a clock that is later at every creation, and fewer than 2^63 numbers; `NewNumberIsLarger` and `RunKeepsKeys` do not.
- LogBroadcast.HandedInOrder: the log is appended to in the order of time; a message that arrives late, with an earlier time, is not modelled.
- Asynchrony: a creation of a preauthorization with its answer from the gateway is one action; so are a capture and a read with its update.
- Store and context failures, in payments and reports: the store succeeds. A missing default card is an error of the lookup, as the callers treat it.
- Refunds: which refunds are requested, their amounts and the money returned are not followed; their answers are.
- The fields for display (user names, currencies, descriptions, log texts, warnings by mail).
- The cipher and the MAC are arbitrary functions; the key check is the length of a Triple-DES key.
- Lower-casing is modelled for the letters of the words looked for, and the groups of users are a field of the session.
- Float rounding and the saturation of durations.
- MeterDownsampling.NormalizeMeterValues: does not cover a negative length, for which the original fails.
- Monthly, user and charger totals, user and tag administration, HTTP handlers, rendering and the remaining queries: they would add easy members only.
