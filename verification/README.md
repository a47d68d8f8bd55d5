# Verified model of the agent and its eSIM helper

A Dafny model of the parts of the router agent and the eSIM helper where a mistake is costly: the
changes that must survive a crash, the eSIM writes that must never be repeated or misreported, the
codecs both programs rely on, and their arithmetic over dates, subnets, batteries and logins.
`dafny verify dfyconfig.toml` checks all of it.

The device, modem, card, servers, storage, clock and stop signals are parameters. Each operation takes
the fate of every call it makes (worked, failed before or after taking effect, answer lost) as an
argument, so a theorem about an operation holds for every pattern of faults, and a theorem about a run
for every sequence of operations, faults and crashes. Where the source updates fields in place the model
is a class whose methods are proved against a function of the old state; the properties are then proved
of those functions.

| modules | what they model |
|---|---|
| `LanRules`, `LanProtocol`, `LanManager` | LAN settings: validation, and the journal, apply, confirm-or-roll-back protocol |
| `UciTransaction`, `UciPlan`, `WifiPlan` | all-or-nothing Wi-Fi updates: the plan and the multi-package commit with restoration |
| `EsimCard`, `EsimHelper`, `EsimDownload`, `EsimReceipts`, `Guard`, `UimClient` | the eSIM helper: profile writes, downloads, receipts, the command guard, the logical channel |
| `EsimAgent`, `EsimVerdict`, `EsimDownloadVerdict`, `EsimRevision`, `EsimInterleaving`, `EsimQueue` | the agent's side: admission, read-back, recovery, revisions, interleavings, receipt queue |
| `Der`, `BitString`, `Hex`, `Base64`, `Qmi`, `HttpReader`, `HttpHead` | the codecs |
| `CivilTime`, `ChargePolicy`, `Auth` | device time, charge limit, login lockout and sessions |
| `Bits`, `Text`, `Prelude` | bit operations, string functions and types the others share |

## Where the code falls short of what it promises

Each of these is proved, with the exact condition under which the promise holds or a run that breaks it.

- LAN: a confirmation whose clear removes the file and then fails to sync reports an error with nothing
  left to roll back to; after a rollback whose clear does so, the rollback of the next deadline does the
  same when it cannot apply (`LanProtocol.RunLosesExactly`).
- A deletion or a download is settled by whatever card is read back; the EID is not compared, so Succeeded
  and, for a download, Failed can be untrue (`EsimVerdict.SuccessUntrueExactly`,
  `EsimDownloadVerdict.DownloadSuccessUntrueExactly`, `EsimDownloadVerdict.DownloadFailureUntrueExactly`).
- `finish` clears the journal in a step of its own, which can erase the journal of an operation admitted
  in between (`EsimInterleaving.JournalSurvivesExactly`), and a change refused for want of a journal can
  come back after a restart (`EsimInterleaving.RefusedComesBackExactly`).
- Revisions restart at zero with the agent, so a change can be admitted of a profile the client never saw
  (`EsimRevision.RevisionNamesContentExactly`, `EsimRevision.RestartAdmitsUnseen`).
- A rename whose answer cannot be read is reported failed although it may have been applied
  (`EsimVerdict.RenameVerdictExactly`), and a crash forgets one that was sent (`EsimInterleaving.RenameIsForgotten`).
- A delivery run that outlives a change of the card can drop the new card's receipts, and receipts queued
  after another card was read are sent to it (`EsimQueue.NothingLostExactly`, `EsimQueue.NothingElseExactly`).
- A download's session on the card stays open when the answer to AuthenticateServer is lost, and one whose
  result is lost is cancelled all the same (`EsimDownload.SessionEndsOnceExactly`).
- An accept that arrives before the preview is shown is taken for the decision (`EsimDownload.AcceptedExactly`).
- A stop signal during a download attempts the CancelSession and the guard then holds it back
  (`EsimDownload.StopStrandsSession`).
- A card that never sends an installation result counts as having installed
  (`EsimDownload.SilentCardCountsAsInstalled`); the agent's read-back catches it.
- More than 32 queued receipts are never delivered (`EsimQueue.TooManyAreNeverSent`).
- The guard mistakes the 257th block of a long request for a command (`Guard.CommandPassesExactly`).
- A success answer to an open that names no channel leaks it unnoted (`UimClient.NamelessSuccessLeaksExactly`),
  and APDUs of 65523 bytes and more make a message that cannot be read (`UimClient.ApduReadableExactly`).
- After a close that may not have been carried out the next session opens a second channel
  (`UimClient.NotifyOpensTwoExactly`).
- A content length near 2^64 wraps in a release build (`HttpReader.WrappedLengthDependsOnSplit`).
- The lockout's 30 seconds are clock seconds: in real time ten guesses fit into nearly every such window
  (`Auth.RealBoundExactly`).
- A manual resume is overridden by the next tick at the limit (`ChargePolicy.ManualCommandHoldsExactly`).
- `device_datetime` is right below 2^63 only (`CivilTime.FieldsDenoteEpochExactly`).

## Model

| member | source | states |
|---|---|---|
| `LanProtocol.RunLosesExactly` | agent/src/lan.rs:171-318 | Over every run of begin, apply, expire, confirm and recover, with power cut after any device write and every fault: the confirmed settings are live or recorded throughout if and only if no confirmation's clear removes the record and fails, and no apply ends with other settings after a rollback's clear has done so. |
| `LanProtocol.StepLosesExactly` | agent/src/lan.rs:171-318 | The same for each single step, with power cut after any of its writes: it keeps the crash-safety invariant, and the settings restorable, if and only if it is not one of those. |
| `LanProtocol.RestartRestoresExactly` | agent/src/lan.rs:171-187 | Cut power anywhere in any such run: recovery on a working device makes the last confirmed settings live if and only if the step cut short was not one of those. |
| `LanProtocol.RecoveryWithoutErrorRestores` | agent/src/lan.rs:171-187 | Whatever the device does, a recovery that reports no error has restored the confirmed settings, cleared the record and moved the listener. |
| `LanProtocol.AgreedMovesOnlyByConfirmation` | agent/src/lan.rs:296-318 | The confirmed settings change only when the right token confirms, in time, a change that is applied and live. |
| `LanProtocol.AcceptedConfirmationIsFinal` | agent/src/lan.rs:259-318 | After an accepted confirmation no expiry, recovery or power cut rolls the change back. |
| `LanProtocol.UnconfirmedIsUndone` | agent/src/lan.rs:243-295 | On a working device a change not confirmed in time, or that could not be applied, is undone completely, listener included. |
| `LanProtocol.SettledDeviceStays` | agent/src/lan.rs:171-318 | With nothing recorded or pending, nothing but a new change touches the device. |
| `LanProtocol.RepeatedConfirmationIsTruthful` | agent/src/lan.rs:296-318 | Confirming again succeeds only for the change that is confirmed and live. |
| `LanProtocol.ConfirmationLosesRecordExactly` | agent/src/lan.rs:296-318 | A confirmation leaves the confirmed settings unrestorable if and only if its clear removes the file and then reports failure. |
| `LanProtocol.LostRecordExample` | agent/src/storage.rs:41-48 | A run in which a confirmation loses them: the client is told the change failed, and a restart keeps the unconfirmed settings. |
| `LanProtocol.LostByRollbackExample` | agent/src/lan.rs:243-295 | A run without any confirmation that loses them: a rollback whose clear removes and fails, and then one that cannot apply; recovery after a restart reports no error. |
| `LanManager.Manager.Begin` | agent/src/lan.rs:188-232 | Begin, as an update of the pending change, error and device: its state, answer and every intermediate device state are those of the protocol. |
| `LanManager.Manager.ApplyPending` | agent/src/lan.rs:243-258 | Applies the pending change, undoing it when the device refuses. |
| `LanManager.Manager.Expire` | agent/src/lan.rs:259-270 | Rolls an unconfirmed change back at its deadline and says whether one still waits. |
| `LanManager.Manager.RollbackLocked` | agent/src/lan.rs:271-295 | Restores the recorded settings, clears the record, and keeps the error of whichever fails. |
| `LanManager.Manager.Confirm` | agent/src/lan.rs:296-318 | Accepts a change by its token, in time and while it is live; every refusal leaves the record. |
| `LanManager.Manager.Recover` | agent/src/lan.rs:171-187 | After a restart restores what the record says, if the record is valid. |
| `LanManager.Binding.Set` | agent/src/lan.rs:40-50 | Moves the listener and counts the move; an overridden address stays. |
| `LanRules.AcceptedExactly` | agent/src/router.rs:99-146 | Settings are accepted exactly when all texts are IPv4 addresses and a number and the numbers are usable. |
| `LanRules.NumbersAcceptedExactly` | agent/src/router.rs:99-146 | The bitwise tests accept exactly: netmask 2^32 - 2^k with 2 <= k <= 24, a private router address strictly inside the subnet, a range of at least two addresses strictly inside it without the router, a lease in range. |
| `LanRules.NetmaskTests` | agent/src/router.rs:124-128 | The three netmask tests are together equivalent to 2^32 - 2^k for some k from 2 to 24. |
| `UciTransaction.Stage.Execute` | agent/src/uci_transaction.rs:107-146 | Under any pattern of failures: success leaves exactly the old values overlaid with the changes; abandoned or restored leaves exactly the old values; any other error leaves each changed key at its old or new value and nothing else touched; and when each outcome is reported. |
| `UciTransaction.Stage.Restore` | agent/src/uci_transaction.rs:121-136 | Puts every changed key back when nothing fails, and never leaves one at a third value. |
| `UciTransaction.Stage.CommitAll` | agent/src/uci_transaction.rs:116-120 | Commits package by package, each key moving only from its old to its new value. |
| `UciTransaction.PackagesExactly` | agent/src/uci_transaction.rs:100-105 | The packages are those of the changed keys, each once, in ascending order. |
| `UciTransaction.OverlayIsMerge` | agent/src/uci_transaction.rs:107-120 | Merging all staged values equals writing the changes one after another. |
| `UciPlan.PlanIsSound` | agent/src/wifi.rs:345-401 | Every planned change starts from the snapshot's value, ends in a value some entry of the request asks for, and no key is planned twice. |
| `UciPlan.PlanCarriesOutRequest` | agent/src/wifi.rs:345-401 | Writing the plan over the snapshot gives every requested value to every path it stands for and changes nothing else. |
| `UciPlan.PlanChanges` | agent/src/wifi.rs:338-401 | The loop over the request, pushing changes, yields exactly the plan or its first error. |
| `WifiPlan.WifiPathsNeverMeet` | agent/src/wifi.rs:346-376 | No two settings of the Wi-Fi table share a configuration path. |
| `WifiPlan.PlanCarriesOutUpdate` | agent/src/wifi.rs:338-424 | An accepted Wi-Fi plan matches the snapshot and carries out the request exactly. |
| `WifiPlan.RequestedBandStaysUsable` | agent/src/wifi.rs:402-424 | After an accepted update a band whose encryption or key was named is open or has an acceptable key, absent options counting as empty. |
| `WifiPlan.WifiSet` | agent/src/wifi.rs:426-448 | The whole request: refused without a write, carried out exactly, reported restored with nothing changed, or left between old and new. |
| `Der.ParseElement` | euicc/src/der.rs:23-55 | The index-advancing parser finds exactly the element at the start of the buffer, or none. |
| `Der.Iter.Next` | euicc/src/der.rs:66-75 | Each step yields the next element and leaves the rest of the same list. |
| `Der.Find` | euicc/src/der.rs:77-79 | Finds the first element with the tag among those before the first malformed one. |
| `Der.EncodeInto` | euicc/src/der.rs:102-128 | Appends exactly the element's encoding to the buffer, children collected apart. |
| `Der.ElementRoundTripsExactly` | euicc/src/der.rs:23-55 | parse(encode ++ rest) gives back tag, contents and raw = encode if and only if the tag is well formed and the contents are under 2^32 bytes (X.690 section 8.1). |
| `Der.EncodingIsShortest` | euicc/src/der.rs:102-128 | Of all byte strings parse accepts for a tag and contents, the encoder's is shortest (X.690 section 10.1). |
| `Der.ItemsAreChildren` | euicc/src/der.rs:58-75 | Iterating over a constructed element yields exactly its children. |
| `Der.FindsFirstChild` | euicc/src/der.rs:77-79 | find on encoded children returns the first child with the tag, whole. |
| `Der.TreeRoundTrip` | euicc/src/der.rs:95-128 | A tree whose tags say which elements are constructed is read back from its encoding. |
| `Der.EncodingIsInjective` | euicc/src/der.rs:95-128 | Equal byte strings that start with encodings start with equal trees. |
| `Der.ToU64IsRemainder` | euicc/src/der.rs:131-133 | Folding bytes gives the number modulo 2^64. |
| `Der.IntegerRoundTrip` | euicc/src/der.rs:131-144 | to_u64 inverts from_u64, whose sign bit is clear. |
| `Der.IntegerIsMinimal` | euicc/src/der.rs:136-144 | No shorter contents denote the same non-negative INTEGER (X.690 section 8.3.2). |
| `BitString.BitNames` | euicc/src/der.rs:147-169 | The shifting-byte loop names exactly the set, used bits in order; what is past the names or the contents is ignored. |
| `Hex.SwapPairs` | euicc/src/hex.rs:41-43 | The in-place swap exchanges each pair of digits. |
| `Hex.IccidToBcd` | euicc/src/hex.rs:36-52 | Pads, swaps in place, decodes, refuses what is too long and fills with 0xFF. |
| `Hex.BcdToIccid` | euicc/src/hex.rs:56-65 | Encodes, swaps in place and drops trailing padding, never the first character. |
| `Hex.DecodeInvertsEncode` | euicc/src/hex.rs:10-31 | Hex decoding inverts encoding. |
| `Hex.RefusedExactly` | euicc/src/hex.rs:36-52 | The conversion fails exactly for a character that is no hex digit and for more than 2n digits. |
| `Hex.DigitsRoundTripExactly` | euicc/src/hex.rs:36-65 | Digits survive the round trip if and only if they are lower-case hex, fit, and bear no trailing padding of their own; the empty string only with no bytes. |
| `Hex.DecimalRoundTrip` | euicc/src/hex.rs:36-65 | Every ICCID of 1 to 2n decimal digits survives (ETSI TS 102 221 section 13.2). |
| `Hex.BytesRoundTrip` | euicc/src/hex.rs:36-65 | Every byte string survives the other round trip. |
| `Base64.Decode` | euicc/src/b64.rs:29-44 | The loop over groups of four yields the bytes of the leading run of alphabet characters. |
| `Base64.RoundTripsExactly` | euicc/src/b64.rs:29-44 | Decoding an unpadded encoding and a suffix gives the bytes back if and only if the suffix adds no alphabet character, or one after whole groups. |
| `Base64.DecodesEncoded` | euicc/src/b64.rs:29-50 | decode inverts RFC 4648 section 4 encoding with padding, without it, and with any suffix starting outside the alphabet. |
| `Qmi.Encode` | esim-helper/src/qrtr_uim.rs:90-104 | The buffer loops produce header and TLVs with their 16-bit lengths. |
| `Qmi.Decode` | esim-helper/src/qrtr_uim.rs:112-133 | The loop over the body yields exactly the message, or nothing for a malformed one. |
| `Qmi.RoundTripsExactly` | esim-helper/src/qrtr_uim.rs:90-133 | decode(encode(m) ++ rest) is m if and only if body and TLVs fit 16-bit lengths. |
| `Qmi.EncodesDecoded` | esim-helper/src/qrtr_uim.rs:112-133 | Encoding a decoded message gives back the bytes consumed. |
| `UimClient.TxnRepeatsExactly` | esim-helper/src/qrtr_uim.rs:318-319 | Transaction numbers are never 0 and repeat exactly at multiples of 65535 requests. |
| `UimClient.DecidedByAnswer` | esim-helper/src/qrtr_uim.rs:311-350 | A request is decided by the first response of its peer, number and message id, never by anything else. |
| `UimClient.FirstAnswerDecides` | esim-helper/src/qrtr_uim.rs:311-350 | The first such response decides it, unless the wait ended before. |
| `UimClient.StaleAnswersNeverDecide` | esim-helper/src/qrtr_uim.rs:311-350 | No late answer to any of the 65534 requests before decides a request. |
| `UimClient.ApduReadableExactly` | esim-helper/src/qrtr_uim.rs:421-442 | Of the APDUs transmit accepts, the message is readable exactly for those under 65523 bytes. |
| `UimClient.ResponseComesThrough` | esim-helper/src/qrtr_uim.rs:443-451 | The card's answer is handed on whole, whatever follows it. |
| `UimClient.Uim.Request` | esim-helper/src/qrtr_uim.rs:311-350 | Takes the next number, sends the encoded request and returns the outcome of the wait. |
| `UimClient.Uim.OpenChannel` | esim-helper/src/qrtr_uim.rs:360-399 | Opens only with no channel owned and none uncertain; names the channel, or notes what may have leaked. |
| `UimClient.Uim.CloseChannel` | esim-helper/src/qrtr_uim.rs:400-420 | Gives the owned channel up before asking, once, and notes an unanswered close. |
| `UimClient.Uim.Transmit` | esim-helper/src/qrtr_uim.rs:421-451 | Sends an APDU on the owned channel only. |
| `UimClient.Uim.Drop` | esim-helper/src/qrtr_uim.rs:453-459 | Closes the channel still owned. |
| `UimClient.RunKeepsSafe` | esim-helper/src/qrtr_uim.rs:359-459 | Of every client, in every run against a modem that may lose any answer: at most one channel is possibly open, uncertainty implies a noted leak or nothing open, and each channel named is asked to be closed at most once. |
| `UimClient.ChannelsOfTheHelper` | esim-helper/src/main.rs:249-263 | Of a whole run of the helper, a fresh client for each session: at every moment a channel without a client implies a noted leak, and besides the session's own at most one is open for each earlier session that ended uncertain. |
| `UimClient.NotifyOpensTwoExactly` | esim-helper/src/main.rs:536-601 | Delivering receipts takes two sessions: the second makes two open channels if and only if the close of the first was not carried out, which is noted as a leak. |
| `UimClient.UncertaintyIsFinal` | esim-helper/src/qrtr_uim.rs:359-459 | Once uncertain, the client never opens or closes anything again. |
| `UimClient.DropLeavesNothingUnnoted` | esim-helper/src/qrtr_uim.rs:453-459 | After the drop no channel is open or the leak was noted, and every channel named was asked to be closed exactly once. |
| `UimClient.NamelessSuccessLeaksExactly` | esim-helper/src/qrtr_uim.rs:388-397 | Without the assumption that a success names its channel: a channel leaks unnoted if and only if the modem opened one and answered success without its number. |
| `Guard.Gate.Allows` | esim-helper/src/main.rs:182-202 | The tag an APDU may pass under, and the command whose next block is due. |
| `Guard.Gate.Transmit` | esim-helper/src/main.rs:212-235 | Which APDUs pass, what is recorded of writes and installs, and for which the wait outlives a stop. |
| `Guard.SessionInOrder` | esim-helper/src/main.rs:182-235 | For every APDU sequence and stop time, each block that passes is a first block with an allowed tag or continues the last forwarded, unfinished allowed command. |
| `Guard.FreshSessionInOrder` | esim-helper/src/main.rs:182-235 | The same from a new session. |
| `Guard.StopWithoutWriteIsFinal` | esim-helper/src/main.rs:218-220 | After a stop with no write forwarded nothing further reaches the card. |
| `Guard.WriteIsNeverCutOff` | esim-helper/src/main.rs:218-233 | Once a write or an install segment left, no allowed block is held back by a stop: the card receives what it would have received without one. |
| `Guard.Command` | euicc/src/lib.rs:117-134 | A request becomes blocks of up to 120 bytes numbered modulo 256. |
| `Guard.CommandPassesExactly` | esim-helper/src/main.rs:182-202 | A request passes whole if and only if every block whose number is a multiple of 256 starts with an allowed tag. |
| `Guard.ShortCommandPassesExactly` | esim-helper/src/main.rs:182-202 | A request of up to 30720 bytes passes whole if and only if its own tag is allowed. |
| `Guard.LongCommandIsCut` | esim-helper/src/main.rs:182-202 | One byte more and the guard takes the 257th block for a command of its own. |
| `HttpReader.DecodeChunked` | esim-helper/src/https.rs:260-277 | The loop yields the chunks' data, nothing yet, or the out-of-range slice a wrapped size asks for. |
| `HttpReader.ReadAnswer` | esim-helper/src/https.rs:200-238 | The read loop's outcome for every sequence of reads. |
| `HttpReader.DecodedIsStable` | esim-helper/src/https.rs:260-277 | A decoded body stays the same when more bytes arrive. |
| `HttpReader.JudgedIsStable` | esim-helper/src/https.rs:281-296 | A complete answer stays complete. |
| `HttpReader.ParsedIsStable` | esim-helper/src/https.rs:300-325 | Status and body of a complete answer stay the same when more bytes arrive. |
| `HttpReader.SplitDoesNotMatter` | esim-helper/src/https.rs:202-325 | For an answer within the limit that is not a 204 and whose declared length does not wrap, status and body do not depend on how the bytes are split over reads (RFC 9112 section 6.3). |
| `HttpReader.TrailingBytesDoNotMatter` | esim-helper/src/https.rs:202-325 | Nor on bytes after the whole answer. |
| `HttpReader.WrappedLengthDependsOnSplit` | esim-helper/src/https.rs:292-295 | With a length that wraps, two deliveries of the same bytes give different bodies whenever there is a body. |
| `HttpReader.ChunkedRoundTrip` | esim-helper/src/https.rs:260-277 | A trailer-free chunked encoding, extensions allowed, decodes to its chunks joined. |
| `HttpReader.PrefixIsUnfinished` | esim-helper/src/https.rs:260-277 | No proper prefix of it decodes. |
| `HttpHead.ReaderAgrees` | esim-helper/src/https.rs:281-311 | The helper's two readings of a head agree wherever it is text. |
| `HttpHead.HeaderIsFirst` | esim-helper/src/https.rs:247-252 | A header's value is that of the first line carrying its name, letter case and surrounding spaces aside. |
| `HttpHead.ExtensionsAreDropped` | esim-helper/src/https.rs:265-266 | A chunk's extensions change nothing about its size. |
| `HttpHead.ChunkedRoundTrip` | esim-helper/src/https.rs:260-277 | With plain hex sizes: the whole decodes, no proper prefix does (RFC 9112 section 7.1). |
| `CivilTime.DateInvertsDayNumber` | agent/src/csv_utils.rs:33-46 | For every day number, negative ones included, the computed date is valid and has that day number in the proleptic Gregorian calendar. |
| `CivilTime.FieldsDenoteEpochExactly` | agent/src/csv_utils.rs:29-47 | The fields are a valid date and time denoting the epoch if and only if the epoch is below 2^63. |
| `CivilTime.DayNumbersOrdered` | agent/src/csv_utils.rs:33-46 | Day numbers are in calendar order, so each date is the only one for its number. |
| `CivilTime.TextSortsAsEpoch` | agent/src/csv_utils.rs:47-47 | Up to the year 9999 string order is epoch order (RFC 3339 section 5.1). |
| `ChargePolicy.Enforcer.Reconcile` | agent/src/charge_policy.rs:193-213 | One tick, with failing sensors and commands that fail before or after taking effect. |
| `ChargePolicy.Enforcer.Change` | agent/src/charge_policy.rs:228-274 | An update: validated, commanded, saved, and undone as far as charger and storage allow. |
| `ChargePolicy.SwitchBound` | agent/src/charge_policy.rs:109-123 | With a fixed enabled policy, no manual command and obedient hardware: at most 1 + 2 per unplugged tick + movement / hysteresis switches. |
| `ChargePolicy.BoundIsReached` | agent/src/charge_policy.rs:109-123 | The bound is attained by every number of full swings. |
| `ChargePolicy.TickIsNext` | agent/src/charge_policy.rs:193-213 | Those runs are the enforcer's own ticks. |
| `ChargePolicy.TickSettles` | agent/src/charge_policy.rs:193-213 | Where a tick leaves an obedient charger: stopped at the limit unless discharging, charging at the lower end or unplugged, unchanged between. |
| `ChargePolicy.ManualCommandHoldsExactly` | agent/src/charge_policy.rs:193-274 | Through ticks of every kind and fate the charger stays as a successful manual command put it if and only if none ends it: for a stop, an unplugged tick that reaches the charger; for a resume, a plugged one at or above the limit and off the battery, with the policy enabled. |
| `ChargePolicy.FailedUpdateUndone` | agent/src/charge_policy.rs:244-274 | A failed update keeps the policy; charger and storage are back if and only if the undoing takes effect where anything had. |
| `ChargePolicy.SuccessIsEverywhere` | agent/src/charge_policy.rs:228-274 | A successful update is in force in memory, storage and charger. |
| `Auth.AuthState.LoginAgainst` | agent/src/auth.rs:101-173 | Lockout check, comparison, and on success a new token with the oldest of ten making room. |
| `Auth.AuthState.LoginPin` | agent/src/auth.rs:93-99 | A malformed PIN is counted as a failure without a comparison. |
| `Auth.AuthState.LoginPassword` | agent/src/auth.rs:84-91 | The same for the password. |
| `Auth.AuthState.RecordFailedLogin` | agent/src/auth.rs:175-192 | Forgets stale clients, counts the failure and arms the lockout. |
| `Auth.AuthState.Validate` | agent/src/auth.rs:197-204 | Drops expired tokens and slides the one presented. |
| `Auth.AtMostFiveGuesses` | agent/src/auth.rs:93-192 | Sequential attempts in time order: any half-open window of 30 clock seconds without a success holds at most five wrong comparisons of a client, PIN and password together. |
| `Auth.LockedOnlyAfterFive` | agent/src/auth.rs:108-192 | Nobody is locked out who has not failed five times, and a success forgets the failures before it. |
| `Auth.RealGuessesBounded` | agent/src/auth.rs:93-192 | In 30 real seconds, the clock cutting time to whole seconds: at most five wrong comparisons when the window opens on a whole second, at most ten otherwise. |
| `Auth.RealBoundExactly` | agent/src/auth.rs:287-292 | A bound holds for every run if and only if it is at least five for a window opening on a whole second, and at least ten for any other: both are reached. |
| `Auth.AtMostTenTokens` | agent/src/auth.rs:157-170 | There are never more than ten tokens. |
| `Auth.TokenSurvives` | agent/src/auth.rs:157-205 | A token used at intervals under an hour stays valid, and of its kind, until the tenth later login. |
| `EsimCard.AppliedShows` | agent/src/esim.rs:1526-1530 | An applied write shows in the profile list as the read-back tests it. |
| `EsimHelper.Helper.Switch` | esim-helper/src/main.rs:358-438 | Enable or disable: card identity, target, class and enabled profile checked in the session, then at most one write. |
| `EsimHelper.Helper.DeleteProfile` | esim-helper/src/main.rs:623-665 | Delete: only an inactive profile, at most one write. |
| `EsimHelper.Helper.Nickname` | esim-helper/src/main.rs:492-515 | Set a nickname, validated first. |
| `EsimHelper.Helper.WriteResult` | esim-helper/src/main.rs:442-469 | Maps a write's answer: applied, refused, unknown or not sent. |
| `EsimHelper.AnswerIsTruthful` | esim-helper/src/main.rs:358-469 | Under every fault and stop at most one write leaves, the one asked for; success means this card shows it, a lost answer leaves both outcomes, every other answer means nothing changed. |
| `EsimHelper.AcceptedSwitchLeavesOne` | esim-helper/src/main.rs:380-410 | An accepted switch leaves exactly the requested profile enabled, or none (SGP.22 section 5.7.16). |
| `EsimHelper.DeletionSparesTheRest` | esim-helper/src/main.rs:623-665 | A deletion is sent for an inactive profile only and leaves every other as it was. |
| `EsimHelper.UnchangedOrShown` | esim-helper/src/main.rs:442-469 | Whatever becomes of a request, the card is as it was or shows the change. |
| `EsimDownload.Download.Run` | esim-helper/src/download.rs:274-317 | A whole download: steps, the late Cancel, and the session's cancellation. |
| `EsimDownload.Download.RunSteps` | esim-helper/src/download.rs:322-436 | The steps in their order, with the session opened by AuthenticateServer and closed by a refusal. |
| `EsimDownload.Download.CancelPending` | esim-helper/src/download.rs:224-236 | Drains the channel up to a Cancel. |
| `EsimDownload.Download.Decide` | esim-helper/src/download.rs:238-255 | The preview's decision: the first message, a stop, the time limit or the agent gone. |
| `EsimDownload.Download.LoadPackage` | euicc/src/download.rs:439-451 | Sends segments until one is refused or fails; the last answer is the result. |
| `EsimDownload.SessionEndsOnceExactly` | esim-helper/src/download.rs:274-436 | A session the card opened ends in exactly one of the card's installation result and one CancelSession (SGP.22 section 3.1.3) if and only if the answer that opened it arrived, the card was not silent to the end of a package reported as installed, and no answer was lost after or with the result; there is never a second CancelSession. |
| `EsimDownload.ConformingCardEndsOnceExactly` | esim-helper/src/download.rs:274-436 | For a card that gives its result with the last segment or a refusal only two exceptions are left: the opening answer lost, and the answer with the result lost. |
| `EsimDownload.UnheardSessionIsStranded` | esim-helper/src/download.rs:274-316 | A session whose opening answer is lost gets no CancelSession, and no segment is sent in it. |
| `EsimDownload.NothingToEnd` | esim-helper/src/download.rs:322-360 | A card that was not asked to open a session gets neither. |
| `EsimDownload.EndingIsTruthful` | esim-helper/src/download.rs:128-317 | Cancelled implies no segment sent; Failed after a segment implies the card refused; a lost install answer is Unknown even with a Cancel pending. |
| `EsimDownload.InstallNeedsConsent` | esim-helper/src/download.rs:322-420 | A segment is sent only if nobody asked to stop at any check, every step worked, time is left, and the download was accepted: in the preview when no message had come by then, and otherwise by the first that had. |
| `EsimDownload.AcceptedExactly` | esim-helper/src/download.rs:238-255 | The preview is accepted if and only if an accept is the first message, given in the waits before any stop and the time limit when nothing came earlier; a message left from before the preview decides it. |
| `EsimDownload.PreviewReasons` | esim-helper/src/download.rs:180-193 | Declined, not confirmed in time and cancelled each cancel the card's session with their own reason (SGP.22 section 5.7.14), and nothing is installed. |
| `EsimDownload.LateReasons` | esim-helper/src/download.rs:298-316 | A lost install answer cancels with a load error; a Cancel that came while another step failed postpones instead. |
| `EsimDownload.SuccessIsTheLastAnswer` | euicc/src/download.rs:439-451 | The helper reports success if and only if every segment was answered and none refused; the card's own success stands behind it if and only if it came last. |
| `EsimDownload.SilentCardCountsAsInstalled` | euicc/src/download.rs:340-344 | A card that answers every segment with nothing counts as having installed. |
| `EsimDownload.StopStrandsSession` | esim-helper/src/main.rs:212-220 | A stop signal before the install: the one CancelSession is attempted and held back by the guard. |
| `EsimReceipts.Helper.Notify` | esim-helper/src/main.rs:520-619 | A delivery run: collect, send, remove, with its results. |
| `EsimReceipts.Helper.Collect` | esim-helper/src/main.rs:549-567 | Reads the listed receipts in order; the others are gone. |
| `EsimReceipts.Helper.Post` | esim-helper/src/main.rs:568-589 | Sends each receipt and parts accepted from rejected. |
| `EsimReceipts.Helper.Remove` | esim-helper/src/main.rs:593-610 | Removes the delivered receipts, each with its fate. |
| `EsimReceipts.OneResultPerNumber` | esim-helper/src/main.rs:520-619 | Every requested number is reported exactly as often as it was asked for. |
| `EsimReceipts.ResultsTellTruth` | esim-helper/src/main.rs:520-619 | Delivered means its server accepted it; gone means the card did not list it. |
| `EsimReceipts.OnlyAcceptedAreRemoved` | esim-helper/src/main.rs:520-619 | Only receipts whose server accepted them leave the card; a failed run has sent and removed nothing (SGP.22 sections 5.7.9 to 5.7.11). |
| `EsimQueue.Receipts.Add` | agent/src/esim.rs:2140-2156 | Queues new numbers once and starts the rounds over. |
| `EsimQueue.Receipts.Settle` | agent/src/esim.rs:2208-2229 | Drops the numbers a run settled and no others. |
| `EsimQueue.Receipts.Work` | agent/src/esim.rs:2171-2258 | The worker's loop, with the reads and new receipts of other threads between its steps. |
| `EsimQueue.Receipts.Read` | agent/src/esim.rs:983-993 | A read of another card empties the queue and starts the rounds over. |
| `EsimQueue.Receipts.Look` | agent/src/esim.rs:2174-2186 | The worker stops, waits, or takes the card and the numbers of its request along. |
| `EsimQueue.Receipts.Return` | agent/src/esim.rs:2205-2245 | The run's outcome, applied to what the queue has become meanwhile. |
| `EsimQueue.LeavesOnlyExcused` | agent/src/esim.rs:2171-2258 | Over every interleaving a number leaves the queue only when a run reported it delivered or gone, or a run or a read found another card. |
| `EsimQueue.NothingLostExactly` | agent/src/esim.rs:2171-2258 | Over every interleaving of worker, reads and new receipts: no receipt of the card read last leaves undelivered if and only if no run made on an earlier card settles its number, and none that found another card empties the queue while something is owed. |
| `EsimQueue.NothingElseExactly` | agent/src/esim.rs:2140-2186 | Only receipts of changes made on the card read last are ever asked for if and only if none is queued after another card was read. |
| `EsimQueue.StaleOnlyBySwap` | agent/src/esim.rs:2174-2205 | In every run a request is of an earlier card only if another one was read while a request was under way. |
| `EsimQueue.StaleRunExample` | agent/src/esim.rs:2233-2236 | A loss: a run still meant for the old card clears the receipts queued meanwhile for the new one. |
| `EsimQueue.AtMostRounds` | agent/src/esim.rs:2171-2183 | At most 24 requests are made, and 24 more for each time new receipts or another card start the rounds over. |
| `EsimQueue.StopsHonestly` | agent/src/esim.rs:2177-2182 | Whenever the worker is not at work nothing is left or it says it gave up, after its rounds. |
| `EsimQueue.SettledIsTrue` | agent/src/esim.rs:2208-2223 | What settles a number in the queue is the truth about card and server. |
| `EsimQueue.TooManyAreNeverSent` | esim-helper/src/main.rs:859-869 | With more than 32 receipts queued, whatever is added, every request is refused and all of them stay until another card is read. |
| `EsimQueue.FewAreAlwaysTaken` | esim-helper/src/main.rs:859-869 | Up to 32, without new ones, every request is one the helper takes. |
| `EsimAgent.Manager.AbsorbRead` | agent/src/esim.rs:963-1061 | One read: inventory, revision, known card, status and receipts. |
| `EsimAgent.Manager.Admit` | agent/src/esim.rs:1269-1352 | The checks of a change in their order, and the claim of the operation. |
| `EsimAgent.Manager.RunSwitch` | agent/src/esim.rs:1414-1495 | One request handed to the helper, and what its outcome comes to. |
| `EsimAgent.Manager.AfterFailure` | agent/src/esim.rs:1433-1476 | What each refusal or failure comes to. |
| `EsimAgent.Manager.Verify` | agent/src/esim.rs:1499-1592 | Reads back until a read decides or the window closes; sends nothing. |
| `EsimAgent.Manager.RunDownload` | agent/src/esim.rs:1729-1781 | One download request and what its ending comes to; after it at most a nickname is sent. |
| `EsimAgent.Manager.AfterDownload` | agent/src/esim.rs:1728-1774 | Each ending the helper reports, with its list of earlier receipts taken over. |
| `EsimAgent.Manager.InstallFound` | agent/src/esim.rs:1843-1882 | The found profile becomes the target, is given the nickname asked for, and the receipts that appeared are queued. |
| `EsimAgent.Manager.SettleDownload` | agent/src/esim.rs:1831-1903 | Looks for a profile that was not there before, until a read decides or the window closes. |
| `EsimAgent.NamelessSendsNothing` | agent/src/esim.rs:1854-1871 | Settling a download sends at most one request, a nickname, and none when no nickname was asked for, as after a restart. |
| `EsimAgent.Manager.RunNickname` | agent/src/esim.rs:2047-2078 | One rename request, its verdict from the answer alone, and a read. |
| `EsimAgent.Manager.Recover` | agent/src/esim.rs:905-952 | Reads back the operation the journal holds; sends nothing. |
| `EsimAgent.Manager.Finish` | agent/src/esim.rs:1408-1412 | The verdict, then the journal's removal, which may fail. |
| `EsimVerdict.VerifiedIsBacked` | agent/src/esim.rs:1499-1592 | Every read-back ends in a verdict some read stands behind. |
| `EsimVerdict.VerdictIsTruthful` | agent/src/esim.rs:1414-1592 | For every fault of helper, modem and read-back the verdict is true: Succeeded only if a later read showed the state and the card has it (a deletion: unless another card was read), Busy, Refused and Failed only if the profiles are unchanged, anything else Unknown (SGP.22 sections 5.7.16 to 5.7.18). |
| `EsimVerdict.SuccessOnTheSameCard` | agent/src/esim.rs:1499-1592 | With the same card throughout, Succeeded means the card shows the change, deletions included. |
| `EsimVerdict.SuccessUntrueExactly` | agent/src/esim.rs:1414-1592 | For every change and fault: Succeeded is untrue of the card if and only if a deletion that was not carried out is read back and the first read is of another card. |
| `EsimVerdict.DeletionFooledBySwap` | agent/src/esim.rs:1526-1530 | Such a run: the EID is not compared. |
| `EsimVerdict.RecoveredVerdictIsTruthful` | agent/src/esim.rs:905-952 | The verdict on an operation whose agent crashed, whatever its helper came to: true as that of a killed run, and Succeeded untrue in exactly the same case. |
| `EsimVerdict.RenameVerdictExactly` | agent/src/esim.rs:2047-2078 | Of a rename Succeeded is true; Refused or Failed is untrue if and only if the answer could not be read and the helper had sent the write, the card applied it, and the name is new. |
| `EsimDownloadVerdict.DownloadSuccessUntrueExactly` | agent/src/esim.rs:1729-1903 | For every fault and every card put in: the download is resolved, and Succeeded is untrue if and only if it is read back and the read that decides is of another card with a profile the agent did not know. |
| `EsimDownloadVerdict.DownloadFailureUntrueExactly` | agent/src/esim.rs:1729-1903 | Failed is untrue of an installed profile if and only if the helper did not report it and the read that decides is of another card without such a profile; Cancelled is always true. |
| `EsimDownloadVerdict.DownloadVerdictIsTruthful` | agent/src/esim.rs:1729-1903 | With one card throughout: Succeeded, the new profile is on the card; Cancelled and Failed, it is not; anything else Unknown (SGP.22 section 3.1.3). |
| `EsimDownloadVerdict.DownloadFooledBySwap` | agent/src/esim.rs:1836-1891 | Another card settles a download one way or the other by the profiles it carries. |
| `EsimDownloadVerdict.RecoveredDownloadExactly` | agent/src/esim.rs:905-952 | The verdict on a download whose agent crashed: Succeeded, Failed or Unknown, untrue in exactly the same cases as that of a killed run. |
| `EsimRevision.RevisionNamesContent` | agent/src/esim.rs:905-1061 | Within one life of the agent, recovery and renames included, two moments with the same revision have the same card and profiles. |
| `EsimRevision.AdmittedTargetWasSeen` | agent/src/esim.rs:1269-1352 | An admitted target is exactly the profile the client saw, on the card it saw, and no other change is in progress. |
| `EsimRevision.RevisionNamesContentExactly` | agent/src/esim.rs:835-846 | A revision names its card and profiles for good if and only if no restart comes between: after one it does only from revision 0, and any other number comes to stand for other profiles. |
| `EsimRevision.RestartAdmitsUnseen` | agent/src/esim.rs:1269-1352 | After a restart a change of any kind, of any target it has not locked, can be admitted at the revision the client named of a profile it never saw. |
| `EsimInterleaving.RunKeepsValid` | agent/src/esim.rs:905-1412 | Over all interleavings of requests, renames included, workers, crashes and restarts: at most one unresolved operation with one thread at work on it, a worker writes only its own operation, each admission issues at most one request. |
| `EsimInterleaving.OneAtWork` | agent/src/esim.rs:1289-1350 | Two threads that have not decided are one, and own the slot. |
| `EsimInterleaving.RecoveredIssuesNothing` | agent/src/esim.rs:905-952 | A recovered operation is read back and never sent again. |
| `EsimInterleaving.JournalSurvivesExactly` | agent/src/esim.rs:1408-1412 | A journal just written survives its operation if and only if no earlier finish is still between its verdict and its clear. |
| `EsimInterleaving.CrashIsRecovered` | agent/src/esim.rs:905-952 | While it survives, a crash at any moment is recovered from. |
| `EsimInterleaving.RefusedComesBackExactly` | agent/src/esim.rs:883-894 | A change refused because its journal could not be written comes back after a crash if and only if the file was left behind; it is read back, and never sent. |
| `EsimInterleaving.RenameIsForgotten` | agent/src/esim.rs:2032-2078 | A rename has no journal: a crash always loses sight of one that was sent. |
| `EsimInterleaving.LostOperationExample` | agent/src/esim.rs:1408-1412 | A run in which the stale clear erases a later operation's journal and a crash forgets a request that was sent. |

## Left out

- Subprocesses, ubus and uci calls, sysfs, sockets, TLS and DNS: outcomes of parameters of the operations.
- HTTP routing, JSON shapes, messages and warnings for people, logging, the web app, the installer and the scripts.
- SHA-256, salts, random tokens and handles: secrets compare as themselves, tokens and handles are distinct values, and profiles go by their ICCIDs.
- Server procedures (ES9+) and the contents of ES10 requests: a step works or fails; what the server checks is not modelled.
- Card refusals: a write with result code 0 is applied and with another code changes nothing, as SGP.22 has it; a card that breaks this is outside the model.
- Activation and confirmation codes, server addresses and public IP ranges: expressions without state that would only add easy members.
- The preview's texts and timers of the agent, and the fate of the nickname request sent after a download, which settles nothing.
- Concurrent logins of one client: the check and the record are separate critical sections, so the bounds are for attempts one after another.
- Chunked trailers (decoding stops after the first trailer line) and 204 answers with a body: outside the reader's theorems.
- UTF-8 decoding is a parameter with the two laws the reader needs; other non-text is not distinguished.
- The in-memory journal of an eSIM operation is modelled as present or absent; one that cannot be parsed is discarded by the source and does not occur here.
- Wi-Fi configuration is one map from full option paths to values; `find_any`, telemetry reads and the USB, SMS and AT functions are not modelled.
- UciTransaction.Stage.Execute: the caller's lock and the firmware's own pending changes appear only as the two checks failing.
- EsimInterleaving.RunKeepsValid: threads interleave at the steps the source separates by locks; what happens inside one locked section is one step.
- EsimVerdict.VerdictIsTruthful: assumes that nobody else writes to the card and that another card has another EID and not the ICCID of the change.
- EsimDownloadVerdict.DownloadSuccessUntrueExactly: the same, and that the card installs one profile, new to it, only in a download in which a segment was sent and no refusal was heard.
